/** Crash points of a put, their repair, and conflicts between puts over whole runs. */
module Crash {
  import opened Prelude
  import opened Models
  import opened Naming
  import opened Store
  import opened Resolve
  import opened Runs
  import opened Plan

  /** Steps no reader can see: blobs, and the anchor of `id`. */
  predicate Quiet(t: Trace, id: string) {
    forall n :: 0 <= n < |t| ==> t[n].AddBlob? || t[n] == BindAnchor(id)
  }

  lemma {:induction false} QuietKeeps(e: Env, w: World, t: Trace, id: string)
    requires Quiet(t, id)
    ensures var s := Replay(e, w, t).store;
            s.versions == w.store.versions && s.latest == w.store.latest
            && w.store.anchored <= s.anchored <= w.store.anchored + {id}
  {
    hide Apply;
    if t != [] {
      var front := t[..|t| - 1];
      assert Quiet(front, id) by { assert forall n :: 0 <= n < |front| ==> front[n] == t[n]; }
      QuietKeeps(e, w, front, id);
      assert t[|t| - 1].AddBlob? || t[|t| - 1] == BindAnchor(id);
    }
  }

  lemma GroundworkQuiet(e: Env, b: Binding, w: World, req: PutRequest, so: StoredObject)
    ensures Quiet(Groundwork(e, b, w, req, so), req.objectId)
  {
    hide Replay, ReachesConfig, AnchorFits;
  }

  /** The store after a put stopped between its version and its latest alias. */
  function HalfPublished(st: Store, so: StoredObject): Store {
    st.(versions := st.versions[KeyOf(so) := so], anchored := st.anchored + {so.metadata.objectId})
  }

  /** Nothing visible happened yet. */
  predicate Untouched(st: Store, s: Store, id: string) {
    s.versions == st.versions && s.latest == st.latest && st.anchored <= s.anchored <= st.anchored + {id}
  }

  /** What a publication of `so` under `id` may leave visible, wherever it stopped: nothing, the new version
      under the old latest alias, or both. */
  predicate Interrupted(st: Store, s: Store, id: string, so: StoredObject) {
    Untouched(st, s, id) || s == HalfPublished(st, so) || s == Published(st, so)
  }

  lemma PrefixCases(t: Trace, x: Event, y: Event, q: Trace)
    requires q <= t + [x, y]
    ensures q <= t || q == t + [x] || q == t + [x, y]
  {
    if |q| > |t| {
      assert q == (t + [x, y])[..|q|];
      assert |q| == |t| + 1 || |q| == |t| + 2;
    } else {
      assert q == (t + [x, y])[..|q|] == t[..|q|];
    }
  }

  lemma FreshCrash(e: Env, b: Binding, w: World, req: PutRequest, content: Identity, now: int, q: Trace)
    requires Lawful(e) && Simulates(e, b, w) && ContentHeld(w.data, content)
    requires TagOf(e, Key(req.objectId, content.digest)) !in w.data.tags
    requires q <= FreshPlan(e, b, w, req, NewStored(b, req, content, now)).events
    ensures var so := NewStored(b, req, content, now);
            var s := Replay(e, w, q).store;
            || (Untouched(w.store, s, req.objectId) && BindVersion(so) !in q)
            || (s == HalfPublished(w.store, so) && BindVersion(so) in q)
            || (s == Published(w.store, so) && BindVersion(so) in q)
  {
    hide Lawful, Simulates, VersionBody, VersionTag, Groundwork, FreshVerdict, NewStored, Next;
    var so := NewStored(b, req, content, now);
    var ground := Groundwork(e, b, w, req, so);
    GroundworkQuiet(e, b, w, req, so);
    if FreshVerdict(e, b, w, req, so).Ok? {
      PrefixCases(ground, BindVersion(so), BindLatest(so), q);
    } else {
      assert ground + [] == ground;
    }
    if q <= ground {
      assert forall n :: 0 <= n < |q| ==> q[n] == ground[n];
      assert Quiet(q, req.objectId);
      QuietKeeps(e, w, q, req.objectId);
    } else if q == ground + [BindVersion(so)] {
      FreshHalf(e, b, w, req, content, now);
    } else {
      FreshPlanRuns(e, b, w, req, content, now);
    }
  }

  lemma FreshHalf(e: Env, b: Binding, w: World, req: PutRequest, content: Identity, now: int)
    requires Lawful(e) && Simulates(e, b, w) && ContentHeld(w.data, content)
    requires TagOf(e, Key(req.objectId, content.digest)) !in w.data.tags
    requires FreshVerdict(e, b, w, req, NewStored(b, req, content, now)).Ok?
    ensures var so := NewStored(b, req, content, now);
            Replay(e, w, Groundwork(e, b, w, req, so) + [BindVersion(so)]).store == HalfPublished(w.store, so)
  {
    hide Lawful, Simulates, VersionBody, VersionTag, Groundwork, IsVersionTag, Enabled, ReachesConfig;
    var so := NewStored(b, req, content, now);
    var ground := Groundwork(e, b, w, req, so);
    GroundworkStage(e, b, w, req, so);
    VersionBindable(e, b, w, req, content, now);
    PublishStage(e, b, Replay(e, w, ground), so);
    ReplaySplit(e, b, w, ground, [BindVersion(so)]);
    if req.objectId in w.store.anchored { AnchorFitsOnce(e, b, w, req.objectId); }
  }

  /**
    Crash consistency of a commit: wherever it stops, the visible store is unchanged, or has gained the
    new version under the old latest alias, or has gained both. Nothing else of it changes.
   */
  lemma CrashConsistency(e: Env, b: Binding, w: World, req: PutRequest, content: Identity, now: int, q: Trace)
    requires Lawful(e) && Simulates(e, b, w) && ContentHeld(w.data, content)
    requires q <= CommitPlan(e, b, w, req, content, now).events
    ensures Interrupted(w.store, Replay(e, w, q).store, req.objectId, Target(e, b, w, req, content, now))
    ensures Simulates(e, b, Replay(e, w, q))
  {
    hide Lawful, Simulates, VersionBody, VersionTag, FreshPlan, Next, LawfulRun, NewStored;
    var plan := CommitPlan(e, b, w, req, content, now);
    CommitPlanRuns(e, b, w, req, content, now);
    LawfulPart(e, b, w, plan.events, |q|, |plan.events|);
    assert q == plan.events[..|q|];
    RunSimulates(e, b, w, q);
    if Taken(w.store, req) {
      assert q == [];
    } else if TagOf(e, Key(req.objectId, content.digest)) !in w.data.tags {
      FreshCrash(e, b, w, req, content, now, q);
    } else if q != [] {
      assert q == plan.events;
    }
  }

  /**
    A publication, payload blobs `sent` first, that stopped anywhere in its commit: the crash cases hold
    between the store it started from and the store it left.
   */
  lemma PublicationCrash(e: Env, b: Binding, origin: World, before: Trace, sent: Trace, trace: Trace, w: World,
                         req: PutRequest, content: Identity, now: int)
    requires Lawful(e) && Simulates(e, b, w) && ContentHeld(w.data, content)
    requires Replay(e, origin, before).store == w.store
    requires forall n :: 0 <= n < |sent| ==> sent[n].AddBlob?
    requires before <= trace <= before + sent + CommitPlan(e, b, w, req, content, now).events
    ensures Interrupted(w.store, Replay(e, origin, trace).store, req.objectId, Target(e, b, w, req, content, now))
    ensures var plan := CommitPlan(e, b, w, req, content, now).events;
            trace == before + sent + plan ==> Replay(e, origin, trace).store == Replay(e, w, plan).store
  {
    hide Lawful, Simulates, CommitPlan, Next, LawfulRun, HalfPublished, Published, Target;
    hide Replay, Interrupted;
    var plan := CommitPlan(e, b, w, req, content, now).events;
    var start := Replay(e, origin, before);
    var blobs, q := SplitRun(before, sent, plan, trace);
    ReplaySplit(e, b, origin, before, blobs + q);
    ReplaySplit(e, b, start, blobs, q);
    BlobsInvisible(e, start, blobs);
    StoreRunsAlone(e, Replay(e, start, blobs), w, q);
    CrashConsistency(e, b, w, req, content, now, q);
  }

  /** A run that goes some way into `sent` and then `plan` is a part of `sent` and a prefix of `plan`. */
  lemma SplitRun(before: Trace, sent: Trace, plan: Trace, trace: Trace) returns (blobs: Trace, q: Trace)
    requires before <= trace <= before + sent + plan
    requires forall n :: 0 <= n < |sent| ==> sent[n].AddBlob?
    ensures trace == before + (blobs + q) && q <= plan && forall n :: 0 <= n < |blobs| ==> blobs[n].AddBlob?
    ensures trace == before + sent + plan ==> q == plan
  {
    var more := trace[|before|..];
    assert forall n :: 0 <= n < |more| ==> more[n] == (before + sent + plan)[|before| + n] == (sent + plan)[n];
    if |more| < |sent| {
      blobs, q := more, [];
      assert blobs + q == more;
    } else {
      blobs, q := sent, more[|sent|..];
      assert blobs + q == more;
      assert forall n :: 0 <= n < |q| ==> q[n] == (sent + plan)[|sent| + n] == plan[n];
      assert q == plan[..|q|];
    }
  }

  /** After a crash, every reference to another object, or to another version, reads as before. */
  lemma CrashIsLocal(e: Env, b: Binding, w: World, w': World, so: StoredObject, id: string, digest: Option<Digest>)
    requires Lawful(e) && Simulates(e, b, w) && Simulates(e, b, w')
    requires Interrupted(w.store, w'.store, so.metadata.objectId, so)
    requires id != so.metadata.objectId || (digest.Some? && digest.value != so.metadata.digest)
    ensures Read(e, b, w'.data, w'.data, w'.data, id, digest) == Read(e, b, w.data, w.data, w.data, id, digest)
  {
    hide Lawful, Simulates, Read, View;
    ReadNow(e, b, w, id, digest);
    ReadNow(e, b, w', id, digest);
  }

  lemma TargetKey(e: Env, b: Binding, w: World, req: PutRequest, content: Identity, now: int)
    requires Simulates(e, b, w)
    ensures KeyOf(Target(e, b, w, req, content, now)) == Key(req.objectId, content.digest)
  {
    hide VersionBody, VersionTag;
    assert forall k :: k in w.store.versions ==> Complete(e, b, w, k);
  }

  /** A successful put is fully published: the exact and the latest reference both read the target version. */
  lemma SuccessIsPublished(e: Env, b: Binding, w: World, req: PutRequest, content: Identity, now: int)
    requires Lawful(e) && Simulates(e, b, w) && ContentHeld(w.data, content)
    requires CommitPlan(e, b, w, req, content, now).outcome.Ok?
    ensures var end := Replay(e, w, CommitPlan(e, b, w, req, content, now).events).data;
            var so := Target(e, b, w, req, content, now);
            && Read(e, b, end, end, end, req.objectId, Some(content.digest)) == Ok(View(e, so))
            && Read(e, b, end, end, end, req.objectId, None) == Ok(View(e, so))
  {
    hide Lawful, Simulates, VersionBody, VersionTag, CommitPlan, Next, NewStored, Read, View, LawfulRun;
    CommitPlanRuns(e, b, w, req, content, now);
    var end := Replay(e, w, CommitPlan(e, b, w, req, content, now).events);
    RunSimulates(e, b, w, CommitPlan(e, b, w, req, content, now).events);
    TargetKey(e, b, w, req, content, now);
    ReadNow(e, b, end, req.objectId, Some(content.digest));
    ReadNow(e, b, end, req.objectId, None);
  }

  /** Exactly when an undisturbed put succeeds. */
  lemma SucceedsIff(e: Env, b: Binding, w: World, req: PutRequest, content: Identity, now: int)
    requires Simulates(e, b, w)
    ensures var so := NewStored(b, req, content, now);
            CommitPlan(e, b, w, req, content, now).outcome.Ok? <==>
              if TagOf(e, KeyOf(so)) in w.data.tags then !req.Exclusive() && KeyOf(so) in w.store.versions
              else !Taken(w.store, req) && AnchorFits(e, b, req.objectId)
                   && RESERVED_FIELD !in req.provenance && Publishable(e, b, so)
  {
    hide VersionBody, VersionTag, AnchorTag, AnchorBody, LatestTag;
    if req.objectId in w.store.anchored { AnchorFitsOnce(e, b, w, req.objectId); }
  }

  /**
    The answer of an undisturbed commit in terms of the request's fields and the tags the registry holds:
    which conflict, which refusal, or whose metadata. A conflict has no effect.
   */
  lemma CommitOutcome(e: Env, b: Binding, w: World, req: PutRequest, content: Identity, now: int)
    requires Lawful(e) && Simulates(e, b, w)
    ensures var id, so := req.objectId, NewStored(b, req, content, now);
            var once := req.immutability.Some? && req.immutability.value.publishOnce;
            CommitPlan(e, b, w, req, content, now).outcome ==
              if once && AnchorTag(e, id) in w.data.tags then Err(ImmutableConflict)
              else if !once && req.createOnly && LatestTag(e, id) in w.data.tags then Err(ConditionalConflict)
              else if VersionTag(e, id, content.digest) in w.data.tags then
                if once then Err(ImmutableConflict)
                else if req.createOnly then Err(ConditionalConflict)
                else if Key(id, content.digest) !in w.store.versions then Err(NotFound)
                else Ok(w.store.versions[Key(id, content.digest)].metadata)
              else if |AnchorBody(e, id)| > b.maxManifestBytes then Err(OtherFailure)
              else if "meridianAdapter" in req.provenance then Err(InvalidRequest)
              else if |e.configText(so)| > b.maxMetadataBytes then Err(InvalidRequest)
              else if '/' !in req.mediaType || |VersionBody(e, so)| > b.maxManifestBytes then Err(OtherFailure)
              else Ok(so.metadata)
    ensures var plan := CommitPlan(e, b, w, req, content, now);
            plan.outcome == Err(ImmutableConflict) || plan.outcome == Err(ConditionalConflict) ==> plan.events == []
  {
    hide VersionBody, VersionTag, AnchorTag, AnchorBody, LatestTag, Lawful, Groundwork, Complete;
    assert AnchorAgrees(e, b, w, req.objectId) && AliasAgrees(e, w, req.objectId);
    if req.objectId in w.store.anchored { AnchorFitsOnce(e, b, w, req.objectId); }
  }

  /** `so` is the record of a put of this request and content at this time, field by field. */
  predicate RecordOf(b: Binding, req: PutRequest, content: Identity, now: int, so: StoredObject) {
    var m := so.metadata;
    && m.resource == b.resource && m.objectId == req.objectId && m.mediaType == req.mediaType
    && m.digest == m.refDigest == content.digest && m.byteLength == content.byteLength
    && m.createdAt == now && m.creationContext == req.creationContext && m.userMetadata == req.userMetadata
    && m.provenance == req.provenance["meridianAdapter" := b.adapterStamp]
    && so.immutability == (if req.immutability.None? then Immutability("immutable", false) else req.immutability.value)
    && m.mutability == so.immutability.mutability && so.retention == req.retention
  }

  /** A successful put of new content publishes its record, as the exact version and as the latest. */
  lemma PublishedRecord(e: Env, b: Binding, w: World, req: PutRequest, content: Identity, now: int)
    requires Lawful(e) && Simulates(e, b, w) && ContentHeld(w.data, content)
    requires CommitPlan(e, b, w, req, content, now).outcome.Ok?
    requires VersionTag(e, req.objectId, content.digest) !in w.data.tags
    ensures var end := Replay(e, w, CommitPlan(e, b, w, req, content, now).events).store;
            var key := Key(req.objectId, content.digest);
            && key in end.versions && RecordOf(b, req, content, now, end.versions[key])
            && req.objectId in end.latest && end.latest[req.objectId] == content.digest
  {
    hide VersionBody, VersionTag, CommitPlan, Replay, Lawful, Simulates;
    CommitPlanRuns(e, b, w, req, content, now);
  }

  /**
    Repair: after a put of this content stopped at any point, a later non-exclusive put of the same
    content that would have been accepted at the start is accepted, and ends fully published: with the
    interrupted put's version if that had been bound, else with its own.
   */
  lemma RetryRepairs(e: Env, b: Binding, w: World, req: PutRequest, content: Identity, now: int, q: Trace,
                     retry: PutRequest, later: int)
    requires Lawful(e) && Simulates(e, b, w) && ContentHeld(w.data, content)
    requires q <= CommitPlan(e, b, w, req, content, now).events
    requires retry.objectId == req.objectId && !retry.Exclusive()
    requires CommitPlan(e, b, w, retry, content, later).outcome.Ok?
    ensures var mid := Replay(e, w, q);
            var again := CommitPlan(e, b, mid, retry, content, later);
            var so := if BindVersion(Target(e, b, w, req, content, now)) in q
                      then Target(e, b, w, req, content, now) else Target(e, b, w, retry, content, later);
            && again.outcome == Ok(so.metadata)
            && Replay(e, mid, again.events).store == Published(w.store, so)
  {
    hide Lawful, Simulates, VersionBody, VersionTag, CommitPlan, Next, NewStored, LawfulRun, Replay, AnchorFits,
      Publishable, Target;
    var mid := Replay(e, w, q);
    CrashConsistency(e, b, w, req, content, now, q);
    ContentStays(e, b, w, req, content, now, q);
    RetryTarget(e, b, w, req, content, now, q, retry, later);
    CommitPlanRuns(e, b, mid, retry, content, later);
    TargetKey(e, b, w, req, content, now);
    TargetKey(e, b, w, retry, content, later);
    var so := if BindVersion(Target(e, b, w, req, content, now)) in q
              then Target(e, b, w, req, content, now) else Target(e, b, w, retry, content, later);
    PublishedAgain(w.store, mid.store, so);
  }

  /**
    Repair between any two states: if `w'` is what an interrupted publication of this content left of `w`,
    a non-exclusive put that was acceptable at `w` is accepted at `w'` and leaves the store that one
    publication on `w` leaves.
   */
  lemma RetryCompletes(e: Env, b: Binding, w: World, w': World, req: PutRequest, content: Identity, now: int,
                       retry: PutRequest, later: int)
    requires Lawful(e) && Simulates(e, b, w) && Simulates(e, b, w') && ContentHeld(w'.data, content)
    requires Interrupted(w.store, w'.store, req.objectId, Target(e, b, w, req, content, now))
    requires retry.objectId == req.objectId && !retry.Exclusive()
    requires CommitPlan(e, b, w, retry, content, later).outcome.Ok?
    ensures var again, so := CommitPlan(e, b, w', retry, content, later), Target(e, b, w', retry, content, later);
            && again.outcome == Ok(so.metadata)
            && Replay(e, w', again.events).store == Published(w.store, so)
            && (so == Target(e, b, w, req, content, now) || so == Target(e, b, w, retry, content, later))
  {
    hide Lawful, Simulates, VersionBody, VersionTag, CommitPlan, Next, LawfulRun, Replay, AnchorFits, Publishable;
    var key, so := Key(req.objectId, content.digest), Target(e, b, w', retry, content, later);
    SucceedsIff(e, b, w, retry, content, later);
    SucceedsIff(e, b, w', retry, content, later);
    TargetKey(e, b, w, req, content, now);
    TargetKey(e, b, w', retry, content, later);
    if w.store.versions == w'.store.versions {
      TagsFollowVersions(e, b, w, w', key);
    } else {
      StoredTagBound(e, b, w', key);
    }
    CommitPlanRuns(e, b, w', retry, content, later);
    PublishedAgain(w.store, w'.store, so);
  }

  lemma PublishedAgain(st: Store, s: Store, so: StoredObject)
    requires s.versions == st.versions || s.versions == st.versions[KeyOf(so) := so]
    requires s.latest == st.latest || s.latest == st.latest[so.metadata.objectId := so.metadata.digest]
    requires st.anchored <= s.anchored <= st.anchored + {so.metadata.objectId}
    ensures Published(s, so) == Published(st, so)
  {
    var id := so.metadata.objectId;
    assert s.anchored + {id} == st.anchored + {id};
  }

  lemma ContentStays(e: Env, b: Binding, w: World, req: PutRequest, content: Identity, now: int, q: Trace)
    requires Lawful(e) && Simulates(e, b, w) && ContentHeld(w.data, content)
    requires q <= CommitPlan(e, b, w, req, content, now).events
    ensures ContentHeld(Replay(e, w, q).data, content)
  {
    hide Lawful, Simulates, CommitPlan, Next;
    var plan := CommitPlan(e, b, w, req, content, now);
    CommitPlanRuns(e, b, w, req, content, now);
    LawfulPart(e, b, w, plan.events, |q|, |plan.events|);
    assert q == plan.events[..|q|];
    RunKeeps(e, b, w, q);
  }

  /** Which version tags are bound depends only on the abstract versions. */
  lemma TagsFollowVersions(e: Env, b: Binding, w: World, w': World, key: Key)
    requires Simulates(e, b, w) && Simulates(e, b, w') && w.store.versions == w'.store.versions
    ensures TagOf(e, key) in w.data.tags <==> TagOf(e, key) in w'.data.tags
  {
    hide VersionBody, VersionTag, Publishable, IsVersionTag;
    TagFamiliesDisjoint(e, "", key.id, key.digest);
    assert Owned(e, w.store, TagOf(e, key)) <==> Owned(e, w'.store, TagOf(e, key));
    assert forall k :: k in w.store.versions ==> Complete(e, b, w, k) && Complete(e, b, w', k);
  }

  /** The retry's plan succeeds, with the interrupted put's version if that had been bound. */
  lemma RetryTarget(e: Env, b: Binding, w: World, req: PutRequest, content: Identity, now: int, q: Trace,
                    retry: PutRequest, later: int)
    requires Lawful(e) && Simulates(e, b, w) && ContentHeld(w.data, content)
    requires q <= CommitPlan(e, b, w, req, content, now).events
    requires retry.objectId == req.objectId && !retry.Exclusive()
    requires CommitPlan(e, b, w, retry, content, later).outcome.Ok?
    ensures var mid := Replay(e, w, q);
            && CommitPlan(e, b, mid, retry, content, later).outcome.Ok?
            && Target(e, b, mid, retry, content, later) ==
                 if BindVersion(Target(e, b, w, req, content, now)) in q
                 then Target(e, b, w, req, content, now) else Target(e, b, w, retry, content, later)
    ensures var so := Target(e, b, w, req, content, now);
            var s := Replay(e, w, q).store;
            if BindVersion(so) in q then s == HalfPublished(w.store, so) || s == Published(w.store, so)
            else s.versions == w.store.versions
                 && w.store.anchored <= s.anchored <= w.store.anchored + {req.objectId}
                 && (s.latest == w.store.latest || s.latest == w.store.latest[req.objectId := content.digest])
  {
    hide Lawful, Simulates, VersionBody, VersionTag, FreshPlan, Next, LawfulRun, Publishable, AnchorFits;
    var mid, key := Replay(e, w, q), Key(req.objectId, content.digest);
    CrashConsistency(e, b, w, req, content, now, q);
    SucceedsIff(e, b, w, retry, content, later);
    SucceedsIff(e, b, mid, retry, content, later);
    if TagOf(e, key) in w.data.tags {
      KnownVersionCrash(e, b, w, req, content, now, q);
      TagsFollowVersions(e, b, w, mid, key);
    } else if Taken(w.store, req) {
      assert q == [];
    } else {
      FreshCrash(e, b, w, req, content, now, q);
      if BindVersion(Target(e, b, w, req, content, now)) in q {
        StoredTagBound(e, b, mid, key);
      } else {
        TagsFollowVersions(e, b, w, mid, key);
      }
    }
  }

  /** A put of a version that is already stored can only refresh the latest alias. */
  lemma KnownVersionCrash(e: Env, b: Binding, w: World, req: PutRequest, content: Identity, now: int, q: Trace)
    requires Simulates(e, b, w) && TagOf(e, Key(req.objectId, content.digest)) in w.data.tags
    requires q <= CommitPlan(e, b, w, req, content, now).events
    ensures BindVersion(Target(e, b, w, req, content, now)) !in q
    ensures var s := Replay(e, w, q).store;
            s.versions == w.store.versions && s.anchored == w.store.anchored
            && (s.latest == w.store.latest || s.latest == w.store.latest[req.objectId := content.digest])
  {
    hide VersionBody, VersionTag, Apply, FreshPlan, Publishable;
    assert forall k :: k in w.store.versions ==> Complete(e, b, w, k);
    if q != [] {
      assert |q| == 1;
      OneStep(e, b, w, q[0]);
      assert q == [q[0]];
    }
  }

  /**
    Colliding truncated hashes: a put whose exact tag already belongs to another id changes nothing
    and fails.
   */
  lemma CollidingPutRefused(e: Env, b: Binding, w: World, req: PutRequest, content: Identity, now: int, other: string)
    requires Lawful(e) && Simulates(e, b, w)
    requires other != req.objectId && ShortHash(e, other) == ShortHash(e, req.objectId)
    requires Key(other, content.digest) in w.store.versions
    ensures CommitPlan(e, b, w, req, content, now).events == []
    ensures CommitPlan(e, b, w, req, content, now).outcome ==
            Err(if req.Exclusive() then Conflict(req) else NotFound)
  {
    hide VersionBody, VersionTag, ShortHash, Lawful;
    var mine, theirs := Key(req.objectId, content.digest), Key(other, content.digest);
    VersionTagCollision(e, other, content.digest, req.objectId, content.digest);
    StoredTagBound(e, b, w, theirs);
    if mine in w.store.versions { SameTagSameVersion(e, b, w, mine, theirs); }
  }

  /** A commit gets as far as the anchor: the id is available, the exact tag free, the anchor small enough. */
  predicate ReachesAnchor(e: Env, b: Binding, w: World, req: PutRequest, content: Identity) {
    !Taken(w.store, req) && TagOf(e, Key(req.objectId, content.digest)) !in w.data.tags
    && AnchorFits(e, b, req.objectId)
  }

  /** Exactly when a commit, refused or not, leaves its id anchored. */
  lemma AnchoredAfterIff(e: Env, b: Binding, w: World, req: PutRequest, content: Identity, now: int)
    requires Lawful(e) && Simulates(e, b, w) && ContentHeld(w.data, content)
    ensures req.objectId in Replay(e, w, CommitPlan(e, b, w, req, content, now).events).store.anchored <==>
            req.objectId in w.store.anchored || ReachesAnchor(e, b, w, req, content)
  {
    hide Lawful, Simulates, VersionBody, VersionTag, Groundwork, FreshVerdict, Next, LawfulRun, IsVersionTag, Target,
      ReachesConfig;
    var plan := CommitPlan(e, b, w, req, content, now);
    CommitPlanRuns(e, b, w, req, content, now);
    if plan.outcome.Ok? {
      TargetKey(e, b, w, req, content, now);
      SucceedsIff(e, b, w, req, content, now);
      var key := Key(req.objectId, content.digest);
      if key in w.store.versions { VersionAnchored(e, b, w, key); }
    } else if !Taken(w.store, req) && TagOf(e, Key(req.objectId, content.digest)) !in w.data.tags {
      var so := NewStored(b, req, content, now);
      GroundworkStage(e, b, w, req, so);
      assert Groundwork(e, b, w, req, so) + [] == Groundwork(e, b, w, req, so);
      if req.objectId in w.store.anchored { AnchorFitsOnce(e, b, w, req.objectId); }
    }
  }

  lemma VersionAnchored(e: Env, b: Binding, w: World, k: Key)
    requires Simulates(e, b, w) && k in w.store.versions
    ensures k.id in w.store.anchored
  {
    assert Complete(e, b, w, k);
  }

  /** The request is refused as invalid once its record is built: reserved provenance, or too much metadata. */
  predicate Inadmissible(e: Env, b: Binding, req: PutRequest, so: StoredObject) {
    RESERVED_FIELD in req.provenance || |e.configText(so)| > b.maxMetadataBytes
  }

  /** A commit refused as inadmissible publishes nothing, but it has bound the anchor. */
  lemma RefusedPutAnchors(e: Env, b: Binding, w: World, req: PutRequest, content: Identity, now: int)
    requires Lawful(e) && Simulates(e, b, w)
    requires Inadmissible(e, b, req, NewStored(b, req, content, now)) && ReachesAnchor(e, b, w, req, content)
    ensures var plan := CommitPlan(e, b, w, req, content, now);
            && plan.outcome == Err(InvalidRequest)
            && Replay(e, w, plan.events).store == w.store.(anchored := w.store.anchored + {req.objectId})
  {
    hide Lawful, Simulates, VersionBody, VersionTag, Groundwork, Next, LawfulRun, IsVersionTag, NewStored,
      ReachesConfig, Taken, AnchorFits;
    var so := NewStored(b, req, content, now);
    GroundworkStage(e, b, w, req, so);
    assert Groundwork(e, b, w, req, so) + [] == Groundwork(e, b, w, req, so);
  }

  /**
    Once an anchor is bound, by a successful, an interrupted or a later deleted put, every publish-once
    put of that id is refused without effect in every continuation of the run.
   */
  lemma AnchorClosesPublishOnce(e: Env, b: Binding, w: World, trace: Trace, req: PutRequest, content: Identity,
                                now: int)
    requires Lawful(e) && Simulates(e, b, w) && LawfulRun(e, b, w, trace)
    requires req.objectId in w.store.anchored && req.PublishOnce()
    ensures CommitPlan(e, b, Replay(e, w, trace), req, content, now) == Plan([], Err(ImmutableConflict))
  {
    hide Lawful, Simulates, FreshPlan, LawfulRun, Replay;
    RunKeeps(e, b, w, trace);
  }
}
