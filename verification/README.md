# Meridian OCI adapter: verified model

This project models the data plane of the Meridian OCI Distribution adapter and proves what it
promises: a multi-step commit over a plain registry, with requests that can fail before or after
their effect and readers that take no lock, behaves like a simple object store.

The pieces, bottom up:

- `Prelude`, `Models`, `Naming`: documents, descriptors, manifests and tag names. Tags are text:
  `m-a1-<hash>`, `m-l1-<hash>` and `m-v1-<first 32 characters of the hash>-<digest>`.
- `Store`: the registry's blobs, manifests and tags (`Data`); the abstract store (`Store`: versions by
  id and digest, a latest pointer per id, the anchored ids); the effects writers have on them
  (`Event`); when an effect is allowed (`Enabled`); and the relation `Simulates` between the two.
- `Resolve`: reading an object back in three requests, each of which may meet another state.
- `Runs`: every list of allowed effects. Writers hold the write lock, so their effects form one list;
  a lock-free reader meets states of that list in order.
- `Plan`, `Crash`: a put as the list of effects it has when nothing fails. A failing request cuts the
  list short, so the crash points of a put are exactly the prefixes of its plan.
- `Journal`: which part of a run each publication is, for statements about several publications.
- `Registry`, `Transport`, `Payloads`, `Adapter`, `Multipart`: the classes that change state, written as the
  source writes them. Each request of `Transport` may fail before its effect, or after it with the
  response lost; `faults` counts those failures, so a contract can also say what happens without any.
  `Adapter.Valid` ties the registry to the abstract store and to the recorded run, and every method
  keeps it; `Manager.Valid` adds that open uploads and live sessions match one to one.
- `Equivalence`, `Migration`, `Clients`: a multipart upload against a put, export followed by import, and
  other sequences of public calls.
- `Ordering`, `Paging`, `Listing`, `Crawls`, `Cursor`: tag order, pages, the listing operation, listings
  whose requests meet different states of a run, signed cursors.
- `Stream`, `Retry`, `Sbom`: the buffered reader, the retry loop and the dependency closure.

What is assumed, each as a parameter and a stated law (`Models.Lawful`, `Cursor.ParsesBack`,
`Migration.Cuts`): SHA-256 and UTF-8 are injective, a hexadecimal hash has at least 32 characters,
parsing undoes canonical JSON printing, and a payload source yields non-empty chunks that make up its
bytes. Nothing is assumed about the truncated id hash. The clock, the random session token and the
HMAC are parameters. There is one writer process (ARCHITECTURE.md lines 64-69), which is what the
write lock serializes.

Two consequences of the code's order of steps that a caller may not expect, kept as they are. The anchor
is bound before the reserved provenance field and the metadata size are checked, so a put refused for
those reasons has closed its id to publish-once puts although it published nothing
(`Crash.RefusedPutAnchors`, `Clients.PublishOnceAfterRefusal`); a commit, refused or not, leaves its id
anchored exactly when it was anchored before or the id was available, its exact tag free and the anchor
manifest within its limit (`Crash.AnchoredAfterIff`). And re-putting stored content returns and keeps the
stored metadata and retention, whatever the new request says (`Plan.CommitPlanRuns`).

## Model

| member | source | states |
|---|---|---|
| `Models.DescriptorsRoundTrip` | src/meridian_storage/adapters/oci/transport/models.py:108-195 | reading the descriptors of a built object manifest gives back config, payload and anchor exactly when the payload media type is valid, and is refused otherwise |
| `Models.VersionDocument` | src/meridian_storage/adapters/oci/transport/models.py:91-150 | the published manifests of a version and of its anchor, read back: artifact types, config, layers, subject and annotations in terms of the stored record and the id |
| `Models.VersionBodyInjective` | src/meridian_storage/adapters/oci/transport/models.py:108-150 | the digest of a version manifest determines the whole stored record, so no two versions share a manifest |
| `Models.VersionBodyNotAnchor` | src/meridian_storage/adapters/oci/transport/models.py:91-133 | no version manifest has the digest of an anchor, so deleting a version never deletes an anchor |
| `Naming.TagFamiliesDisjoint` | src/meridian_storage/adapters/oci/_naming.py:23-39 | anchor, latest and version tags never coincide, and the listing prefix picks out exactly the version family among them |
| `Naming.TagText` | src/meridian_storage/adapters/oci/_naming.py:23-39 | the exact text of the three kinds of tags, and of the listing prefix |
| `Naming.VersionTagCollision` | src/meridian_storage/adapters/oci/_naming.py:31-35 | two version tags are equal if and only if the digests are equal and the truncated id hashes collide |
| `Store.StepSimulates` | src/meridian_storage/adapters/oci/adapter.py:342-378 | every allowed effect takes a registry that represents a store to one that represents the next store: at every step each bound version tag has its anchor, config and payload in place and matching, and each latest tag points at a stored version of its id |
| `Store.AddBlobStep` | tests/support/registry.py:113-127 | storing a blob changes nothing the registry represents, because content addressing makes overwriting harmless |
| `Store.BindVersionStep` | src/meridian_storage/adapters/oci/adapter.py:351-359 | binding a free exact tag adds one complete version and disturbs no other binding |
| `Store.RemoveStep` | tests/support/registry.py:184-191 | dropping a version manifest with every tag bound to it removes that version, and its latest alias if it had it, and keeps every other version, alias and anchor in place |
| `Resolve.ReadIsLookup` | src/meridian_storage/adapters/oci/adapter.py:459-502 | the three reads of a resolve answer as the abstract store does at the tag read, whenever the later reads still find the blobs and anchors of that moment; a colliding tag reads as not found |
| `Resolve.ReadVerifies` | src/meridian_storage/adapters/oci/adapter.py:459-502 | in any repository, consistent or not, an answered read is of the id, digest and resource asked for, with a config that has its manifest's digest and size, a payload descriptor that agrees with the record and a subject that is the manifest bound to the anchor tag |
| `Runs.RunSimulates` | src/meridian_storage/adapters/oci/adapter.py:283-378 | refinement over every run of put, multipart and delete effects |
| `Runs.RunKeeps` | tests/support/registry.py:113-127 | over every run blobs keep their bytes and anchored ids stay anchored |
| `Runs.ReadersLinearize` | src/meridian_storage/adapters/oci/adapter.py:459-502 | a lock-free resolve whose tag, config and anchor reads meet three successive states of any run returns what the abstract store holds in the first of them |
| `Runs.PayloadStaysReadable` | src/meridian_storage/adapters/oci/adapter.py:380-388 | the blob a resolve names is present in every later state, with that digest and length |
| `Runs.RetainedVersionSurvives` | src/meridian_storage/adapters/oci/retention/__init__.py:11-23 | a version stays stored, record unchanged, through every run in which no delete had a clock reading that releases its retention |
| `Runs.UnremovedVersionSurvives` | src/meridian_storage/adapters/oci/adapter.py:450-457 | a version that no delete of the run removes stays stored with its record |
| `Runs.RetentionHolds` | src/meridian_storage/adapters/oci/adapter.py:450-457 | a version without release date is never removed, one retained until t not before t: it still resolves to the same record and bytes after any such run, re-puts with weaker retention included |
| `Runs.DeleteIsolation` | src/meridian_storage/adapters/oci/adapter.py:450-457 | after a delete exactly the references that stood for that version are not found, a digest-less one included, never an older version; every other reference and every anchor reads as before |
| `Runs.NoCrossReads` | src/meridian_storage/adapters/oci/adapter.py:459-477 | in every run, colliding truncated hashes or not, a reader only gets the object it named, and bytes with the digest it named |
| `Runs.VersionTagNeverRebound` | src/meridian_storage/adapters/oci/adapter.py:294-305 | no step rebinds the tag of a stored version; only the permitted delete of that version drops it |
| `Runs.AnchoredIff` | src/meridian_storage/adapters/oci/adapter.py:363-378 | an id is anchored exactly when it was at the start or some effect of the run bound its anchor |
| `Plan.CommitPlanRuns` | src/meridian_storage/adapters/oci/adapter.py:283-361 | a commit only takes allowed steps, and a successful one changes the abstract store by one publication of the version it returns |
| `Crash.CrashConsistency` | src/meridian_storage/adapters/oci/adapter.py:283-361 | wherever a commit stops, the visible store is unchanged, or has the new version under the old latest, or has both; nothing else changes and the registry still represents a store |
| `Crash.PublicationCrash` | src/meridian_storage/adapters/oci/adapter.py:207-226 | the same for a whole publication, payload upload included: payload blobs and then any prefix of the commit leave one of the three crash cases of the store it started from |
| `Adapter.PrefixIsCrashConsistent` | src/meridian_storage/adapters/oci/adapter.py:207-226 | with the reads: after such a publication every reference to another id or version still reads as before, and without interruption the id is anchored exactly under the stated guards |
| `Crash.CrashIsLocal` | src/meridian_storage/adapters/oci/adapter.py:283-361 | between the states before and after an interrupted publication every reference to another id, or to another version of the id, reads the same |
| `Crash.SuccessIsPublished` | src/meridian_storage/adapters/oci/adapter.py:359-361 | after a successful put the exact and the digest-less reference both read the published version |
| `Crash.SucceedsIff` | src/meridian_storage/adapters/oci/adapter.py:293-345 | exactly when a put without request failures succeeds |
| `Crash.CommitOutcome` | src/meridian_storage/adapters/oci/adapter.py:293-361 | the exact answer of an undisturbed commit, conflicts and refusals by kind, in terms of the request's fields and the tags the registry holds: create-only refuses an id with a latest tag, publish-once one with an anchor tag, both a bound exact tag; a conflict has no effect |
| `Crash.PublishedRecord` | src/meridian_storage/adapters/oci/adapter.py:312-361 | the record a successful put of new content publishes, field by field, and that it becomes the latest |
| `Clients.PutMeans` | src/meridian_storage/adapters/oci/adapter.py:183-226 | exactly when a put without request failures succeeds, spelled out in payload, declarations, request and tags; what it published; and that it leaves the registry's uploads as they were |
| `Crash.RetryRepairs` | src/meridian_storage/adapters/oci/adapter.py:295-305 | after a put stopped at any point, a non-exclusive put of the same content that was acceptable before it is accepted and ends fully published, with the interrupted version if that had been bound and its own otherwise |
| `Crash.RetryCompletes` | src/meridian_storage/adapters/oci/adapter.py:295-305 | between any two registry states that differ by an interrupted publication, a non-exclusive put acceptable at the first is accepted at the second and leaves the store that one publication on the first leaves |
| `Clients.PutAgain` | src/meridian_storage/adapters/oci/adapter.py:183-226 | a put that stopped anywhere and then a put of the same content: the second, if it was acceptable before the first, succeeds unless its own requests fail, and success leaves the store of one publication |
| `Crash.CollidingPutRefused` | src/meridian_storage/adapters/oci/adapter.py:294-305 | a put whose exact tag belongs to another id with the same truncated hash fails and has no effect |
| `Crash.AnchoredAfterIff` | src/meridian_storage/adapters/oci/adapter.py:293-345 | a commit, refused or not, leaves its id anchored if and only if it was anchored before or the id was available, its exact tag free and its anchor within the manifest limit |
| `Crash.RefusedPutAnchors` | src/meridian_storage/adapters/oci/adapter.py:306-345 | a commit refused for the reserved provenance field or the metadata size changes the store by the anchor and nothing else |
| `Clients.PublishOnceAfterRefusal` | src/meridian_storage/adapters/oci/adapter.py:293-345 | after such a refused put a publish-once put of the id is refused too, and both leave only the anchor |
| `Crash.AnchorClosesPublishOnce` | src/meridian_storage/adapters/oci/adapter.py:532-544 | once an anchor is bound, by whatever put, every publish-once put of the id is refused without effect in every continuation of the run |
| `Journal.PublicationExplained` | src/meridian_storage/adapters/oci/adapter.py:293-306 | a successful publication started while its id was available, bound the latest tag last and, for publish-once, its own anchor |
| `Journal.PublishOnceIsFirst` | src/meridian_storage/adapters/oci/adapter.py:532-544 | a publish-once publication succeeds only if nothing earlier in the run, failed puts included, bound the anchor of its id |
| `Journal.AtMostOnePublishOnce` | src/meridian_storage/adapters/oci/multipart/__init__.py:171-186 | at most one publish-once publication of an id ever succeeds, over puts, multipart completions and deletes |
| `Clients.CompleteBoth` | src/meridian_storage/adapters/oci/multipart/__init__.py:171-186 | two publish-once completions of one id, with a delete in between, never both succeed, however their requests fail |
| `Journal.ExclusiveAfterSuccessFails` | src/meridian_storage/adapters/oci/adapter.py:532-544 | with no delete in between, a publication with create-only set or a publish-once policy fails after any successful publication of the same id |
| `Registry.Registry.StartUpload` | tests/support/registry.py:74-84 | a fresh, empty upload |
| `Registry.Registry.PatchUpload` | tests/support/registry.py:86-104 | appends exactly when the range starts at the bytes held and matches the body length |
| `Registry.Registry.FinishUpload` | tests/support/registry.py:113-127 | stores the bytes under their digest and closes the upload, or keeps the upload, body appended, when the digest differs |
| `Registry.Registry.AbortUpload` | tests/support/registry.py:110-112 | forgets the upload |
| `Registry.Registry.PutManifest` | tests/support/registry.py:163-180 | stores the body under its digest and binds the tag |
| `Registry.Registry.DeleteManifest` | tests/support/registry.py:184-191 | drops the manifest and every tag bound to it |
| `Registry.Registry.ListTags` | tests/support/registry.py:204-220 | the first n tags strictly after the cursor tag, in the order of `Ordering.BelowMeans` |
| `Ordering.BelowMeans` | tests/support/registry.py:207-209 | the order of tags and package names: a proper prefix first, else by the first character that differs |
| `Transport.Transport.StartUpload` | src/meridian_storage/adapters/oci/transport/client.py:99-114 | a returned location is a new empty upload at offset zero |
| `Transport.Transport.PatchUpload` | src/meridian_storage/adapters/oci/transport/client.py:116-140 | success appends the chunk at the offset and advances it by the chunk length; without a request failure an empty chunk, an unknown upload and a wrong offset are refused, each with its own error, and nothing else is |
| `Transport.Transport.Finalize` | src/meridian_storage/adapters/oci/transport/client.py:142-154 | success stores exactly the uploaded bytes under the declared digest and closes the upload, touching no other |
| `Transport.Transport.AbortSafely` | src/meridian_storage/adapters/oci/transport/client.py:524-528 | no other upload is touched, the attempt is recorded, and unless the request fails the registry drops the upload |
| `Transport.Transport.UploadBlobBytes` | src/meridian_storage/adapters/oci/transport/client.py:177-200 | on success the blob is stored unless it was there, and the upload it opened is finalized or an abort was attempted; without a request failure the registry's uploads are as before and only a stored blob of another size is refused |
| `Transport.Transport.GetManifest` | src/meridian_storage/adapters/oci/transport/client.py:260-285 | without a request failure the tagged manifest with its digest if it is within the bound and parses, not found if the tag is unbound |
| `Transport.Transport.GetBlobBytes` | src/meridian_storage/adapters/oci/transport/client.py:202-217 | without a request failure the stored bytes exactly when they have the descriptor's digest and size within the bound |
| `Transport.Transport.PutManifest` | src/meridian_storage/adapters/oci/transport/client.py:297-312 | success means the tag is bound to the body; an oversized body is refused without a request |
| `Transport.Transport.DeleteManifest` | src/meridian_storage/adapters/oci/transport/client.py:314-321 | deletes by digest; because deletes are retried, a lost response can surface as not found after the effect |
| `Transport.Transport.ListTags` | src/meridian_storage/adapters/oci/transport/client.py:323-349 | one window of tags, and more to come exactly when the window is full |
| `Adapter.Adapter.RequireCreateAvailable` | src/meridian_storage/adapters/oci/adapter.py:532-544 | without a request failure refuses exactly when the request is publish-once and the anchor tag is bound, or create-only and the latest tag is bound, each with its own conflict |
| `Adapter.Adapter.StoredForReference` | src/meridian_storage/adapters/oci/adapter.py:459-502 | answers as the abstract store, or fails because a request failed |
| `Adapter.Adapter.ReadReference` | src/meridian_storage/adapters/oci/adapter.py:459-502 | the requests and checks of a resolve on any registry: the answer of `Read`, or a failed request |
| `Adapter.Adapter.RecognizeAnchor` | src/meridian_storage/adapters/oci/adapter.py:366-376 | a bound anchor tag is taken only for a manifest of the anchor type with this id's annotation, described by its own bytes; anything else conflicts |
| `Adapter.Adapter.EnsureAnchor` | src/meridian_storage/adapters/oci/adapter.py:363-378 | effects are a prefix of blob then anchor; success returns the anchor's own descriptor |
| `Adapter.Adapter.CommitKnown` | src/meridian_storage/adapters/oci/adapter.py:295-305 | for a bound exact tag: refreshes the latest alias of a stored version and returns the stored metadata, or not found when the tag is another id's |
| `Adapter.Adapter.CommitFresh` | src/meridian_storage/adapters/oci/adapter.py:306-361 | anchor, config, version, latest alias in that order, or a prefix of it |
| `Adapter.Adapter.CommitObject` | src/meridian_storage/adapters/oci/adapter.py:283-361 | effects are a prefix of the commit plan, all of it when the call returns normally or no request failed |
| `Adapter.Adapter.StreamPayload` | src/meridian_storage/adapters/oci/adapter.py:246-257 | success means the payload meets its limits and declarations, the identity is that of its bytes, the upload holds exactly them, and the PATCH ranges are the chunk ranges; without a request failure a refusal names what is wrong with the payload; no other upload is touched |
| `Payloads.RangesTile` | src/meridian_storage/adapters/oci/adapter.py:247-255 | chunk ranges tile the payload: from zero, end to start, to its length, each holding its chunk |
| `Adapter.Adapter.UploadOnce` | src/meridian_storage/adapters/oci/adapter.py:234-273 | one pass: success leaves the payload blob stored, failure leaves no upload open, without a request failure only an unacceptable payload fails, and a declared blob that is there is not sent |
| `Adapter.Adapter.UploadPayload` | src/meridian_storage/adapters/oci/adapter.py:228-274 | at most two passes, one when not replayable, two when a replayable payload's first pass failed as unavailable or rate limited; the end of the loop is never reached; only the payload's own blob is added |
| `Adapter.Adapter.Put` | src/meridian_storage/adapters/oci/adapter.py:183-226 | effects are at most two copies of the payload blob and a prefix of the commit plan, none at all when the id is taken; on success all of the plan and its result; wherever it stops the store is in one of the three crash cases and all other references read as before; without a request failure the answer is that of the plan or names what is wrong with the payload, the id is anchored exactly under the stated guards and the registry's uploads are as before; uploads opened are finalized or aborted; the publication is entered in the journal |
| `Adapter.Adapter.PublishUpload` | src/meridian_storage/adapters/oci/multipart/__init__.py:171-188 | the locked part of a completion has the effects of a put of the uploaded bytes, or a prefix of them; the state machine is committed exactly on success, still uploading only if nothing but the payload blob can have been stored, and otherwise past the finalized upload |
| `Adapter.Adapter.Delete` | src/meridian_storage/adapters/oci/adapter.py:450-457 | removes the named version or nothing; without a request failure fails exactly when the version is missing or its retention forbids |
| `Clients.DeleteMeans` | src/meridian_storage/adapters/oci/adapter.py:450-457 | without a request failure a version without retention is deleted, one retained until t exactly from t on, one without release date never; a deleted version is not found, and neither is the digest-less reference if it stood for it |
| `Multipart.Manager.BeginMultipart` | src/meridian_storage/adapters/oci/multipart/__init__.py:69-100 | opens one live session with one upload, or changes nothing; without a request failure refused exactly when the id is taken, with its conflict |
| `Multipart.Manager.UploadPart` | src/meridian_storage/adapters/oci/multipart/__init__.py:102-144 | a part in order extends the session by exactly its bytes, keeping hash input, length, offset, part list and registry bytes in step; without a request failure it is taken exactly when it is not empty, within the part and object limits and as declared; a failure while streaming removes the session and, unless a request fails, its upload; other sessions are untouched |
| `Multipart.Manager.CompleteMultipart` | src/meridian_storage/adapters/oci/multipart/__init__.py:146-198 | refused up front, leaving the session, exactly when the parts are not the uploaded ones, one but the last is below 64 KiB or `MultipartCompletion` rejects them; otherwise the session ends and, without a request failure, so does its upload, with the answer of a put of the concatenated parts unless they are not as declared; success has the effects of that put; wherever it stops the store is in one of the three crash cases; the publication is entered in the journal |
| `Multipart.Manager.FinishSession` | src/meridian_storage/adapters/oci/multipart/__init__.py:171-198 | the upload is finalized or an abort is attempted, the session is forgotten and the publication entered in the journal; the state machine ends committed exactly on success, a failure marked free of a physical commit left the store unchanged, any other came after the payload was stored |
| `Multipart.Manager.AbortMultipart` | src/meridian_storage/adapters/oci/multipart/__init__.py:200-207 | forgets the session, attempts to abort its upload, which the registry drops unless the request fails, and ends an uploading session aborted |
| `Multipart.PartAdded` | src/meridian_storage/adapters/oci/multipart/__init__.py:129-144 | a session whose part was hashed, sent and recorded is live again |
| `Multipart.TrackedDrop` | src/meridian_storage/adapters/oci/multipart/__init__.py:196-207 | removing a session and closing its upload keeps open uploads and live sessions matched one to one |
| `Equivalence.MultipartMatchesPut` | src/meridian_storage/adapters/oci/multipart/__init__.py:69-198 | begin, ordered parts and a successful complete leave the same registry contents and return the same metadata as a successful put of the concatenated bytes on an equal repository; without request failures, with acceptable parts and true declarations, both answer the same, refusals included |
| `Equivalence.PutInParts` | src/meridian_storage/adapters/oci/multipart/__init__.py:69-198 | begin, parts and complete answer, without request failures and with acceptable parts and true declarations, exactly as a put of the concatenated bytes would |
| `Paging.PageBound` | src/meridian_storage/adapters/oci/adapter.py:430-448 | no page exceeds its limit, it holds the hits among the tags up to its next cursor, or all remaining hits when it has none, and it stops before the end only at its limit or at the end of its window |
| `Paging.PageExact` | src/meridian_storage/adapters/oci/adapter.py:430-448 | a page returns a tag if and only if it is a hit after the cursor and not beyond the next cursor |
| `Paging.FollowAscends` | src/meridian_storage/adapters/oci/adapter.py:425-448 | following cursors over arbitrarily changing repositories returns strictly ascending tags, so nothing twice |
| `Paging.FollowFindsAll` | src/meridian_storage/adapters/oci/adapter.py:425-448 | a tag that is a hit at every page of a completed crawl is returned |
| `Paging.FollowIsFullScan` | src/meridian_storage/adapters/oci/adapter.py:425-448 | on a fixed repository following cursors ends and returns the full filtered scan in tag order |
| `Listing.List` | src/meridian_storage/adapters/oci/adapter.py:425-448 | on a repository at rest one call returns the metadata of one page after its cursor, and a cursor for the last tag it scanned; without a request failure only a bad cursor fails |
| `Listing.HitIff` | src/meridian_storage/adapters/oci/adapter.py:436-441 | a stored version is a hit exactly when its id has the prefix |
| `Listing.CursorContinues` | src/meridian_storage/adapters/oci/adapter.py:445-447 | the cursor of a page resumes after the tag it stopped at |
| `Listing.OwnTagsContinue` | src/meridian_storage/adapters/oci/_naming.py:19-63 | every tag the adapter generates for a SHA-256 digest is grammatical, so a page that stops at it can be continued |
| `Listing.ListAll` | src/meridian_storage/adapters/oci/adapter.py:425-448 | calling list with each returned cursor until there is none ends, and returns the metadata of the full filtered scan in tag order unless a request fails |
| `Crawls.ScanExact` | src/meridian_storage/adapters/oci/adapter.py:431-444 | the scanning loop returns the hits up to the limit and how many tags it scanned, or fails exactly when one of those version tags cannot be read |
| `Crawls.EntryLinearizes` | src/meridian_storage/adapters/oci/adapter.py:438-439 | a listed tag whose manifest and config are read in different states gives the version that had the tag at the manifest request, or not found when none had it |
| `Crawls.ListingExact` | src/meridian_storage/adapters/oci/adapter.py:425-448 | a listing without lock, each request meeting any later state of a run: it fails, as not found, if and only if a version tag it scans is no longer bound when read; otherwise it returns the page of the hits at those moments |
| `Crawls.ListingLinearizes` | src/meridian_storage/adapters/oci/adapter.py:425-448 | if no listed version is removed before its manifest is read, such a listing returns exactly the page of the state in which the tags were listed |
| `Crawls.CrawlFindsStoredVersions` | src/meridian_storage/adapters/oci/adapter.py:425-448 | over any run, with writers active within and between pages, a version stored at every page of a completed crawl is returned, and nothing twice |
| `Crawls.CrawlReturnsOnlyVersions` | src/meridian_storage/adapters/oci/adapter.py:425-448 | every returned tag was the tag of a stored version with the prefix when its manifest was read |
| `Cursor.Base64RoundTrip` | src/meridian_storage/adapters/oci/_naming.py:89-94 | unpadded base64url undoes itself for every byte string |
| `Cursor.Alphabet` | src/meridian_storage/adapters/oci/_naming.py:89-94 | the URL-safe alphabet, value by value, and the two standard characters the decoder also takes |
| `Cursor.QuadSpells` | src/meridian_storage/adapters/oci/_naming.py:89-94 | four symbols are the base-64 digits of the number three bytes spell, most significant first |
| `Cursor.Leniency` | src/meridian_storage/adapters/oci/_naming.py:93-94 | what the decoder makes of text no encoder writes: where `=` ends the input, what is skipped, and that an incomplete group or text that is not ASCII is refused |
| `Cursor.CursorRoundTrip` | src/meridian_storage/adapters/oci/_naming.py:56-86 | a cursor decodes to its tag exactly when the tag is grammatical, the grammar spelled out; any other is an invalid request |
| `Cursor.AcceptedCursorIsSigned` | src/meridian_storage/adapters/oci/_naming.py:65-86 | any accepted text carries a payload signed with the key, of the cursor format, naming a tag of at most 128 characters of the tag grammar |
| `Stream.IteratorReader.Read` | src/meridian_storage/adapters/oci/transport/stream.py:24-43 | a size of zero or more returns exactly that many bytes or all that is left, a negative size everything, taken from the front; a closed stream fails |
| `Stream.PiecesCoverBody` | src/meridian_storage/adapters/oci/transport/stream.py:24-43 | for every read sizes the pieces are consecutive bytes of the body, and all of it once a read asked for everything or came back short |
| `Stream.PieceIs` | src/meridian_storage/adapters/oci/transport/stream.py:24-43 | each piece of a series of reads starts where the ones before it stopped and is as long as asked for or as what is left |
| `Stream.ReadPieces` | src/meridian_storage/adapters/oci/transport/stream.py:24-43 | a series of reads returns the pieces of the remaining body whatever the response chunking, empty chunks included |
| `Retry.Request` | src/meridian_storage/adapters/oci/transport/client.py:386-445 | sends until the first attempt that is not transient or the attempts are used up, returns that attempt's verdict, and sleeps the doubling delays in between |
| `Retry.RequestMeans` | src/meridian_storage/adapters/oci/transport/client.py:397-445 | which attempts are followed by another, network errors, the six retriable statuses and bodies broken off within the bound and nothing else, and what is made of the attempt a request stops at |
| `Retry.RequestBounded` | src/meridian_storage/adapters/oci/transport/client.py:397-445 | one send without retry, at most the maximum with it; only an expected status with a complete bounded body is returned; total delay at most 0.05 * (2^(attempts-1) - 1) |
| `Retry.BoundedResponse` | src/meridian_storage/adapters/oci/transport/client.py:564-579 | returns the whole body exactly when it fits the bound and is not cut off |
| `Sbom.LockedRuntimePackages` | scripts/generate_sbom.py:30-46 | terminates; fails exactly when a reachable name is not locked; else returns the reachable packages by name and the edges that leave them by source and target, without duplicates |
| `Sbom.ClosedCovers` | scripts/generate_sbom.py:36-45 | a set with the root and the dependencies of its members holds everything reachable |
| `Migration.ExportLogical` | src/meridian_storage/adapters/oci/migration.py:49-71 | an export carries the stored version that was asked for, or the latest, with its bytes and their declaration; without a request failure it fails, as not found, exactly when there is none |
| `Migration.ImportLogical` | src/meridian_storage/adapters/oci/migration.py:73-97 | an import is the put of the portable fields, with its answer |
| `Migration.MigratedKeeps` | src/meridian_storage/adapters/oci/migration.py:73-97 | migration changes resource, creation time and adapter stamp of a record and nothing else |
| `Migration.ImportAccepted` | src/meridian_storage/adapters/oci/migration.py:73-97 | exactly when an import of a never published id is accepted: its exact tag is free and the record fits the target's limits |
| `Migration.MigrationPreserves` | src/meridian_storage/adapters/oci/migration.py:49-97 | a version imported where its id was never published reads the same, under both references and with the same bytes, but for resource, creation time and adapter stamp |
| `Migration.Migrate` | src/meridian_storage/adapters/oci/migration.py:43-97 | export and import on two adapters: the same conclusion for a successful run, and exactly when a run without request failures succeeds |
| `Migration.BytesRoundTrip` | src/meridian_storage/adapters/oci/adapter.py:380-388 | after a successful put and any later effects, reading the response of a get in pieces of any sizes yields the bytes that were put |

## Left out

- HTTP details: URLs, headers, redirects, authorization, status-to-error mapping beyond the retry loop. Requests are abstract steps that may fail.
- SHA-256, HMAC and JSON text: used through the stated laws. A hash is not limited to 64 characters, and generated tags are not checked against the tag grammar.
- Object Common types that are not part of the repository: `PutStateMachine` (only the states a multipart session passes through), `MultipartCompletion` (its verdict is a parameter), range resolution, capability negotiation. `RetentionRequest.require_delete_allowed` is taken to permit deletion from `retain_until` on.
- `get`, `stat` and `read_range` as operations: they resolve a reference and register a payload; range arithmetic is library code.
- Binding validation, descriptors, the factory, the probe, packaging and verification scripts: field checks and constants.
- Several writer processes and `registry-enforced` mode: that guarantee is the registry's.
- Expiry of multipart sessions and the minimum chunk length: recorded by the source, not enforced by it.
- SBOM document fields beyond the closure: `_spdx_id` and the JSON layout.
- Multipart.MultipartState: the session record is a value in the session table, so aliasing of a state object held across calls is not captured.
- Listing.List: the method reads a repository at rest; listings during a run are the subject of `Crawls`. `limit` is positive, as Object Common guarantees. `Listing.ListAll` takes the repository's tags to be grammatical.
- Adapter.Adapter.Put: upload steps of multipart sessions that run beside a put are not interleaved inside it; they touch only their own uploads.
