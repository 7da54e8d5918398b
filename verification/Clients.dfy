/** Sequences of public calls, and what the theorems about runs say of them. */
module Clients {
  import opened Prelude
  import opened Models
  import opened Naming
  import opened Store
  import opened Resolve
  import opened Runs
  import opened Plan
  import opened Crash
  import opened Journal
  import opened Payloads
  import opened Adapter
  import opened Multipart

  /**
    Two publish-once completions of one id never both succeed, however the requests fail, and deleting a
    version of the id in between does not change that.
   */
  method CompleteBoth(m: Manager, x: Session, xs: seq<Part>, y: Session, ys: seq<Part>, digest: Digest,
                      rejected: (bool, bool), now: int, middle: int, later: int)
    returns (first: Result<Metadata>, second: Result<Metadata>)
    requires m.Valid() && x.id != y.id && m.StateOf(x).Some? && m.StateOf(y).Some?
    requires m.StateOf(x).value.req.PublishOnce() && m.StateOf(y).value.req.PublishOnce()
    requires m.StateOf(x).value.req.objectId == m.StateOf(y).value.req.objectId
    modifies m, m.adapter, m.adapter.transport, m.adapter.transport.registry
    ensures m.Valid()
    ensures !(first.Ok? && second.Ok?)
  {
    hide Simulates, Lawful, Replay, LawfulRun, IsJournal, InStep, Tracked, CommitPlan, WithContent, Presentable,
      Declares, CrashConsistent, Concat;
    var id := m.sessions[x.id].req.objectId;
    first := m.CompleteMultipart(x, xs, rejected.0, now);
    ghost var n := |m.adapter.journal|;
    label deleting:
    var gone := m.adapter.Delete(id, digest, middle);
    m.AdapterCallsKeepSessions@deleting();
    second := m.CompleteMultipart(y, ys, rejected.1, later);
    if first.Ok? && second.Ok? {
      AtMostOnePublishOnce(m.adapter.e, m.adapter.origin, m.adapter.trace, m.adapter.journal, n - 1, n);
    }
  }

  /**
    Exactly when a put succeeds if no request fails, in terms of its payload, its request and the tags there
    were; and what it published when the content was new to the id.
   */
  method PutMeans(a: Adapter, req: PutRequest, p: Payload, now: int) returns (res: Result<Metadata>)
    requires a.Valid() && p.WellChunked()
    modifies a, a.transport, a.transport.registry
    ensures a.Valid()
    ensures a.transport.faults == old(a.transport.faults) ==>
              var id, bytes, tags := req.objectId, p.Content(), old(a.Now()).data.tags;
              var digest, so := a.e.hash(bytes), NewStored(a.b, req, IdentityOf(a.e, bytes), now);
              var once := req.immutability.Some? && req.immutability.value.publishOnce;
              res.Ok? <==>
                && |bytes| <= a.b.maxObjectBytes
                && (p.expectedLength.Some? ==> p.expectedLength.value == |bytes|)
                && (p.expectedDigest.Some? ==> p.expectedDigest.value == digest)
                && if VersionTag(a.e, id, digest) in tags
                   then !once && !req.createOnly && Key(id, digest) in old(a.store).versions
                   else
                     && (once ==> AnchorTag(a.e, id) !in tags)
                     && (req.createOnly && !once ==> LatestTag(a.e, id) !in tags)
                     && |AnchorBody(a.e, id)| <= a.b.maxManifestBytes
                     && "meridianAdapter" !in req.provenance && '/' in req.mediaType
                     && |a.e.configText(so)| <= a.b.maxMetadataBytes && |VersionBody(a.e, so)| <= a.b.maxManifestBytes
    ensures res.Ok? && VersionTag(a.e, req.objectId, a.e.hash(p.Content())) !in old(a.Now()).data.tags ==>
              var key := Key(req.objectId, a.e.hash(p.Content()));
              && key in a.store.versions
              && RecordOf(a.b, req, IdentityOf(a.e, p.Content()), now, a.store.versions[key])
              && res.value == a.store.versions[key].metadata
              && req.objectId in a.store.latest && a.store.latest[req.objectId] == key.digest
  {
    hide Simulates, Lawful, Replay, LawfulRun, IsJournal, CommitPlan, CrashConsistent, Concat, Accepted, ReachesAnchor,
      NewStored, VersionTag, AnchorTag, LatestTag, Rejection, Taken, RecordOf, AnchorBody, VersionBody, Target;
    ghost var w0, content := a.Now(), IdentityOf(a.e, p.Content());
    ghost var w := WithContent(a.e, w0, p.Content());
    ghost var sent;
    ContentAdded(a.e, a.b, w0, p.Content());
    CommitOutcome(a.e, a.b, w, req, content, now);
    AcceptedMeans(a.e, a.b, p);
    res, sent := a.Put(req, p, now);
    if res.Ok? {
      CommitPlanRuns(a.e, a.b, w, req, content, now);
      TargetKey(a.e, a.b, w, req, content, now);
      if VersionTag(a.e, req.objectId, content.digest) !in w.data.tags {
        PublishedRecord(a.e, a.b, w, req, content, now);
      }
    }
  }

  lemma AcceptedMeans(e: Env, b: Binding, p: Payload)
    ensures Accepted(e, b, p) <==>
            && |p.Content()| <= b.maxObjectBytes
            && (p.expectedLength.Some? ==> p.expectedLength.value == |p.Content()|)
            && (p.expectedDigest.Some? ==> p.expectedDigest.value == e.hash(p.Content()))
  {
  }

  /**
    When a delete goes through if no request fails, and what is left: a version without retention is
    deleted, one retained until `t` exactly from `t` on, one under a policy without release date never.
   */
  method DeleteMeans(a: Adapter, id: string, digest: Digest, now: int) returns (res: Result<()>)
    requires a.Valid()
    modifies a, a.transport, a.transport.registry
    ensures a.Valid()
    ensures var key := Key(id, digest);
            var versions := old(a.store).versions;
            a.transport.faults == old(a.transport.faults) ==>
              && (key !in versions ==> res == Err(NotFound))
              && (key in versions && versions[key].retention.None? ==> res.Ok?)
              && (key in versions && versions[key].retention.Some? ==>
                    var until := versions[key].retention.value.retainUntil;
                    (res.Ok? <==> until.Some? && until.value <= now) && (res.Err? ==> res.error == RetentionDenied))
    ensures var key := Key(id, digest);
            res.Ok? ==>
              && key in old(a.store).versions && a.store.versions == old(a.store).versions - {key}
              && Lookup(a.e, a.store, id, Some(digest)) == Err(NotFound)
              && (Lookup(a.e, old(a.store), id, None) == Lookup(a.e, old(a.store), id, Some(digest)) ==>
                    Lookup(a.e, a.store, id, None) == Err(NotFound))
    ensures res.Err? && a.transport.faults == old(a.transport.faults) ==> a.Now() == old(a.Now())
  {
    hide Simulates, Lawful, Replay, LawfulRun, IsJournal, VersionBody, VersionTag, VersionManifest, Apply;
    ghost var w := a.Now();
    res := a.Delete(id, digest, now);
    if res.Ok? {
      VersionBound(a.e, a.b, w, Key(id, digest));
      LatestDigest(a.e, a.b, w, id);
    }
  }

  /**
    A put and a later non-exclusive put of the same content. If the second succeeds, the store is what one
    publication leaves, whatever happened to the first; and it succeeds when it was acceptable before the
    first and none of its own requests fails.
   */
  method PutAgain(a: Adapter, req: PutRequest, p: Payload, now: int, retry: PutRequest, later: int)
    returns (first: Result<Metadata>, second: Result<Metadata>, ghost so: StoredObject, ghost undisturbed: bool)
    requires a.Valid() && p.WellChunked() && retry.objectId == req.objectId && !retry.Exclusive()
    modifies a, a.transport, a.transport.registry
    ensures a.Valid()
    ensures var w, content := WithContent(a.e, old(a.Now()), p.Content()), IdentityOf(a.e, p.Content());
            CommitPlan(a.e, a.b, w, retry, content, later).outcome.Ok? ==>
              && (so == Target(a.e, a.b, w, req, content, now) || so == Target(a.e, a.b, w, retry, content, later))
              && (second.Ok? ==> second.value == so.metadata && a.store == Published(old(a.store), so))
              && (undisturbed && Accepted(a.e, a.b, p) ==> second.Ok?)
    ensures a.transport.faults == old(a.transport.faults) ==> undisturbed
  {
    hide Simulates, Lawful, Replay, LawfulRun, IsJournal, CommitPlan, WithContent, CrashConsistent, Concat, Accepted,
      Target, Published, IdentityOf, ReachesAnchor;
    ghost var w0 := a.Now();
    ghost var content := IdentityOf(a.e, p.Content());
    ghost var sent;
    first, sent := a.Put(req, p, now);
    ghost var mid, faults := a.Now(), a.transport.faults;
    second, sent := a.Put(retry, p, later);
    undisturbed := a.transport.faults == faults;
    ContentAdded(a.e, a.b, w0, p.Content());
    ContentAdded(a.e, a.b, mid, p.Content());
    so := Target(a.e, a.b, WithContent(a.e, mid, p.Content()), retry, content, later);
    LeftInterrupted(a.e, a.b, w0, mid, req, p.Content(), now);
    if CommitPlan(a.e, a.b, WithContent(a.e, w0, p.Content()), retry, content, later).outcome.Ok? {
      RetryCompletes(a.e, a.b, WithContent(a.e, w0, p.Content()), WithContent(a.e, mid, p.Content()), req, content, now,
                     retry, later);
    }
  }

  lemma LeftInterrupted(e: Env, b: Binding, w: World, w': World, req: PutRequest, bytes: Bytes, now: int)
    requires CrashConsistent(e, b, w, w', req, bytes, now)
    ensures Interrupted(w.store, w'.store, req.objectId,
                        Target(e, b, WithContent(e, w, bytes), req, IdentityOf(e, bytes), now))
  {
  }

  /**
    A put that is refused as inadmissible after reaching the anchor, and then a publish-once put of the id:
    the second is refused too, and all that is left of both is the anchor.
   */
  method PublishOnceAfterRefusal(a: Adapter, req: PutRequest, p: Payload, now: int,
                                 next: PutRequest, q: Payload, later: int)
    returns (first: Result<Metadata>, second: Result<Metadata>, ghost undisturbed: bool)
    requires a.Valid() && p.WellChunked() && q.WellChunked()
    requires next.objectId == req.objectId && next.PublishOnce()
    modifies a, a.transport, a.transport.registry
    ensures a.Valid()
    ensures var w, content := WithContent(a.e, old(a.Now()), p.Content()), IdentityOf(a.e, p.Content());
            undisturbed && Accepted(a.e, a.b, p) && ReachesAnchor(a.e, a.b, w, req, content)
            && Inadmissible(a.e, a.b, req, NewStored(a.b, req, content, now)) ==>
              && first == Err(InvalidRequest) && second.Err?
              && a.store == old(a.store).(anchored := old(a.store).anchored + {req.objectId})
    ensures a.transport.faults == old(a.transport.faults) ==> undisturbed
  {
    hide Simulates, Lawful, Replay, LawfulRun, IsJournal, WithContent, CrashConsistent, Concat, Accepted, Target,
      Published, IdentityOf, ReachesAnchor, CommitPlan, Taken, Inadmissible, NewStored;
    ghost var w0, faults := a.Now(), a.transport.faults;
    ghost var sent, w, content := [], WithContent(a.e, a.Now(), p.Content()), IdentityOf(a.e, p.Content());
    first, sent := a.Put(req, p, now);
    undisturbed := a.transport.faults == faults;
    ghost var mid, t := a.Now(), a.trace;
    ContentAdded(a.e, a.b, w0, p.Content());
    ContentAdded(a.e, a.b, mid, q.Content());
    second, sent := a.Put(next, q, later);
    if undisturbed && Accepted(a.e, a.b, p) && ReachesAnchor(a.e, a.b, w, req, content)
       && Inadmissible(a.e, a.b, req, NewStored(a.b, req, content, now))
    {
      RefusedPutAnchors(a.e, a.b, w, req, content, now);
      AnchoredIsTaken(a.e, a.b, WithContent(a.e, mid, q.Content()), next, IdentityOf(a.e, q.Content()), later);
      PrefixIsCrashConsistent(a.e, a.b, a.origin, t, a.trace, sent, next, q.Content(), later);
    }
  }

  lemma AnchoredIsTaken(e: Env, b: Binding, w: World, req: PutRequest, content: Identity, now: int)
    requires req.objectId in w.store.anchored && req.PublishOnce()
    ensures CommitPlan(e, b, w, req, content, now) == Plan([], Err(ImmutableConflict))
    ensures Replay(e, w, []) == w
  {
  }
}
