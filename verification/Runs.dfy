/**
  Whole runs. A run is the list of effects that the serialized writers had on the repository; a
  lock-free reader meets any states of it in order. Everything here is for every run.
 */
module Runs {
  import opened Prelude
  import opened Models
  import opened Naming
  import opened Store
  import opened Resolve

  type Trace = seq<Event>

  function Replay(e: Env, w: World, trace: Trace): World {
    if trace == [] then w else Next(e, Replay(e, w, trace[..|trace| - 1]), trace[|trace| - 1])
  }

  /** Every effect was enabled when it happened. */
  predicate LawfulRun(e: Env, b: Binding, w: World, trace: Trace) {
    trace == [] ||
    (LawfulRun(e, b, w, trace[..|trace| - 1]) &&
     Enabled(e, b, Replay(e, w, trace[..|trace| - 1]), trace[|trace| - 1]))
  }

  /** The state after the first `n` effects. */
  function At(e: Env, w: World, trace: Trace, n: nat): World
    requires n <= |trace|
  {
    Replay(e, w, trace[..n])
  }

  lemma {:induction false} ReplaySplit(e: Env, b: Binding, w: World, s: Trace, t: Trace)
    ensures Replay(e, w, s + t) == Replay(e, Replay(e, w, s), t)
    ensures LawfulRun(e, b, w, s + t) <==> LawfulRun(e, b, w, s) && LawfulRun(e, b, Replay(e, w, s), t)
  {
    if t == [] {
      assert s + t == s;
    } else {
      var front := t[..|t| - 1];
      assert (s + t)[..|s + t| - 1] == s + front;
      ReplaySplit(e, b, w, s, front);
    }
  }

  lemma LawfulPart(e: Env, b: Binding, w: World, trace: Trace, i: nat, j: nat)
    requires i <= j <= |trace| && LawfulRun(e, b, w, trace)
    ensures LawfulRun(e, b, w, trace[..i]) && LawfulRun(e, b, At(e, w, trace, i), trace[i..j])
    ensures Replay(e, At(e, w, trace, i), trace[i..j]) == At(e, w, trace, j)
  {
    assert trace == trace[..j] + trace[j..];
    ReplaySplit(e, b, w, trace[..j], trace[j..]);
    assert trace[..j] == trace[..i] + trace[i..j];
    ReplaySplit(e, b, w, trace[..i], trace[i..j]);
  }

  /** Refinement: every run keeps the repository representing the abstract store that took the same steps. */
  lemma {:induction false} RunSimulates(e: Env, b: Binding, w: World, trace: Trace)
    requires Lawful(e) && Simulates(e, b, w) && LawfulRun(e, b, w, trace)
    ensures Simulates(e, b, Replay(e, w, trace))
  {
    if trace != [] {
      var front := trace[..|trace| - 1];
      RunSimulates(e, b, w, front);
      StepSimulates(e, b, Replay(e, w, front), trace[|trace| - 1]);
    }
  }

  lemma SimulatesAt(e: Env, b: Binding, w: World, trace: Trace, i: nat)
    requires Lawful(e) && Simulates(e, b, w) && LawfulRun(e, b, w, trace) && i <= |trace|
    ensures Simulates(e, b, At(e, w, trace, i))
  {
    LawfulPart(e, b, w, trace, i, |trace|);
    RunSimulates(e, b, w, trace[..i]);
  }

  // ----- the abstract store along a run -----

  /** What a run does to the abstract store depends on the store alone, not on the repository. */
  lemma {:induction false} StoreRunsAlone(e: Env, w: World, w': World, trace: Trace)
    requires w.store == w'.store
    ensures Replay(e, w, trace).store == Replay(e, w', trace).store
  {
    hide Apply;
    if trace != [] { StoreRunsAlone(e, w, w', trace[..|trace| - 1]); }
  }

  /** Storing blobs is invisible in the abstract store. */
  lemma {:induction false} BlobsInvisible(e: Env, w: World, trace: Trace)
    requires forall n :: 0 <= n < |trace| ==> trace[n].AddBlob?
    ensures Replay(e, w, trace).store == w.store
  {
    hide Apply;
    if trace != [] {
      var front := trace[..|trace| - 1];
      assert forall n :: 0 <= n < |front| ==> front[n] == trace[n];
      BlobsInvisible(e, w, front);
      assert trace[|trace| - 1].AddBlob?;
    }
  }

  // ----- what only grows -----

  /** Blobs are immutable and anchors permanent over a run. */
  lemma {:induction false} RunKeeps(e: Env, b: Binding, w: World, trace: Trace)
    requires Lawful(e) && Simulates(e, b, w) && LawfulRun(e, b, w, trace)
    ensures forall d :: d in w.data.blobs ==>
              d in Replay(e, w, trace).data.blobs && Replay(e, w, trace).data.blobs[d] == w.data.blobs[d]
    ensures w.store.anchored <= Replay(e, w, trace).store.anchored
  {
    if trace != [] {
      var front := trace[..|trace| - 1];
      var mid := Replay(e, w, front);
      RunKeeps(e, b, w, front);
      RunSimulates(e, b, w, front);
      StepKeepsBlobs(e, mid, trace[|trace| - 1]);
    }
  }

  lemma StepKeepsBlobs(e: Env, w: World, ev: Event)
    requires Lawful(e) && BlobsAddressed(e, w.data)
    ensures forall d :: d in w.data.blobs ==>
              d in Next(e, w, ev).data.blobs && Next(e, w, ev).data.blobs[d] == w.data.blobs[d]
  {
    hide VersionBody, VersionTag, AnchorBody, AnchorTag, LatestTag;
    if ev.AddBlob? {
      forall d | d in w.data.blobs && d == e.hash(ev.content) ensures w.data.blobs[d] == ev.content {
        assert e.preimage(e.hash(w.data.blobs[d])) == e.preimage(e.hash(ev.content));
      }
    }
  }

  // ----- lock-free readers -----

  /**
    Lock-free readers linearize at their tag request: with the tag read in state `i`, the config in a
    later state `j` and the anchor in a later state `k`, the answer is the one the abstract store
    gives in state `i`, whatever writers did in between.
   */
  lemma ReadersLinearize(e: Env, b: Binding, w: World, trace: Trace, i: nat, j: nat, k: nat,
                         id: string, digest: Option<Digest>)
    requires Lawful(e) && Simulates(e, b, w) && LawfulRun(e, b, w, trace) && i <= j <= k <= |trace|
    ensures Read(e, b, At(e, w, trace, i).data, At(e, w, trace, j).data, At(e, w, trace, k).data, id, digest)
            == Lookup(e, At(e, w, trace, i).store, id, digest)
  {
    hide Simulates, Read, Lookup, Lawful, AnchorTag, AnchorBody;
    var wi, wj, wk := At(e, w, trace, i), At(e, w, trace, j), At(e, w, trace, k);
    SimulatesAt(e, b, w, trace, i);
    SimulatesAt(e, b, w, trace, k);
    LawfulPart(e, b, w, trace, i, j);
    LawfulPart(e, b, w, trace, i, k);
    RunKeeps(e, b, wi, trace[i..j]);
    RunKeeps(e, b, wi, trace[i..k]);
    AnchorsBound(e, b, wk);
    ReadIsLookup(e, b, wi, wj.data, wk.data, id, digest);
  }

  lemma AnchorsBound(e: Env, b: Binding, w: World)
    requires Simulates(e, b, w)
    ensures forall i :: i in w.store.anchored ==> Bound(e, w.data, AnchorTag(e, i), AnchorBody(e, i))
  {
    forall i | i in w.store.anchored ensures Bound(e, w.data, AnchorTag(e, i), AnchorBody(e, i)) {
      assert AnchorAgrees(e, b, w, i);
    }
  }

  /** The bytes behind an answer stay available: any later GET of the payload returns the content with that digest. */
  lemma PayloadStaysReadable(e: Env, b: Binding, w: World, trace: Trace, i: nat, n: nat, id: string,
                             digest: Option<Digest>)
    requires Lawful(e) && Simulates(e, b, w) && LawfulRun(e, b, w, trace) && i <= n <= |trace|
    requires Lookup(e, At(e, w, trace, i).store, id, digest).Ok?
    ensures var r := Lookup(e, At(e, w, trace, i).store, id, digest).value;
            var blobs := At(e, w, trace, n).data.blobs;
            r.payload.digest in blobs && e.hash(blobs[r.payload.digest]) == r.payload.digest
            && |blobs[r.payload.digest]| == r.payload.size
  {
    hide VersionBody, VersionTag, AnchorTag, LatestTag, AnchorBody, VersionManifest, Lawful;
    SimulatesAt(e, b, w, trace, i);
    SimulatesAt(e, b, w, trace, n);
    LawfulPart(e, b, w, trace, i, n);
    RunKeeps(e, b, At(e, w, trace, i), trace[i..n]);
    var wi := At(e, w, trace, i);
    assert forall k :: k in wi.store.versions ==> Complete(e, b, wi, k);
  }

  // ----- retention -----

  /** No delete in the trace had a clock reading that releases `retention`. */
  predicate NeverReleased(retention: Option<Retention>, trace: Trace) {
    forall n :: 0 <= n < |trace| && trace[n].Remove? ==> !DeletePermitted(retention, trace[n].now)
  }

  /** One step keeps a version, with its metadata, unless it is the permitted delete of exactly that version. */
  lemma StepKeepsVersion(e: Env, b: Binding, w: World, ev: Event, k: Key)
    requires Lawful(e) && VersionsAgree(e, b, w) && Enabled(e, b, w, ev) && k in w.store.versions
    requires !(ev.Remove? && ev.stored == w.store.versions[k])
    ensures k in Next(e, w, ev).store.versions && Next(e, w, ev).store.versions[k] == w.store.versions[k]
  {
    hide VersionBody, VersionTag;
    assert Complete(e, b, w, k);
  }

  /**
    Retention over whole runs: a retained version stays, with identical metadata and payload, through
    any puts, re-puts, multipart completions and deletes whose clock readings do not release it.
   */
  lemma {:induction false} RetainedVersionSurvives(e: Env, b: Binding, w: World, trace: Trace, k: Key)
    requires Lawful(e) && Simulates(e, b, w) && LawfulRun(e, b, w, trace)
    requires k in w.store.versions && NeverReleased(w.store.versions[k].retention, trace)
    ensures k in Replay(e, w, trace).store.versions
    ensures Replay(e, w, trace).store.versions[k] == w.store.versions[k]
  {
    hide Simulates, Lawful, Next;
    if trace != [] {
      var front := trace[..|trace| - 1];
      assert forall n :: 0 <= n < |front| ==> front[n] == trace[n];
      RetainedVersionSurvives(e, b, w, front, k);
      RunSimulates(e, b, w, front);
      RetainedStep(e, b, Replay(e, w, front), trace[|trace| - 1], k);
    }
  }

  /** A version that no step of the run removes stays, with its metadata. */
  lemma {:induction false} UnremovedVersionSurvives(e: Env, b: Binding, w: World, trace: Trace, k: Key)
    requires Lawful(e) && Simulates(e, b, w) && LawfulRun(e, b, w, trace) && k in w.store.versions
    requires forall n :: 0 <= n < |trace| && trace[n].Remove? ==> trace[n].stored != w.store.versions[k]
    ensures k in Replay(e, w, trace).store.versions
    ensures Replay(e, w, trace).store.versions[k] == w.store.versions[k]
  {
    hide Lawful, Next, Enabled, AnchorsAgree, LatestAgree, VersionsAgree, BlobsAddressed;
    if trace != [] {
      var front, last := trace[..|trace| - 1], trace[|trace| - 1];
      assert forall n :: 0 <= n < |front| ==> front[n] == trace[n];
      UnremovedVersionSurvives(e, b, w, front, k);
      RunSimulates(e, b, w, front);
      assert last.Remove? ==> last.stored != w.store.versions[k];
      StepKeepsVersion(e, b, Replay(e, w, front), last, k);
    }
  }

  lemma RetainedStep(e: Env, b: Binding, w: World, ev: Event, k: Key)
    requires Lawful(e) && Simulates(e, b, w) && Enabled(e, b, w, ev) && k in w.store.versions
    requires ev.Remove? ==> !DeletePermitted(w.store.versions[k].retention, ev.now)
    ensures k in Next(e, w, ev).store.versions && Next(e, w, ev).store.versions[k] == w.store.versions[k]
  {
    StepKeepsVersion(e, b, w, ev, k);
  }

  /** A version under a policy without release date is never removed; one retained until `t` not before `t`. */
  lemma RetentionHolds(e: Env, b: Binding, w: World, trace: Trace, k: Key)
    requires Lawful(e) && Simulates(e, b, w) && LawfulRun(e, b, w, trace) && k in w.store.versions
    requires w.store.versions[k].retention.Some?
    requires var until := w.store.versions[k].retention.value.retainUntil;
             until.Some? ==> forall n :: 0 <= n < |trace| && trace[n].Remove? ==> trace[n].now < until.value
    ensures var end := Replay(e, w, trace);
            && Read(e, b, end.data, end.data, end.data, k.id, Some(k.digest)) == Ok(View(e, w.store.versions[k]))
            && k.digest in end.data.blobs && k.digest in w.data.blobs
            && end.data.blobs[k.digest] == w.data.blobs[k.digest]
  {
    hide VersionBody, VersionTag, AnchorTag, LatestTag, AnchorBody, VersionManifest, Lawful, Read;
    RetainedVersionSurvives(e, b, w, trace, k);
    RunSimulates(e, b, w, trace);
    RunKeeps(e, b, w, trace);
    assert Complete(e, b, w, k);
    ReadNow(e, b, Replay(e, w, trace), k.id, Some(k.digest));
  }

  /** An undisturbed read answers as the abstract store. */
  lemma ReadNow(e: Env, b: Binding, w: World, id: string, digest: Option<Digest>)
    requires Lawful(e) && Simulates(e, b, w)
    ensures Read(e, b, w.data, w.data, w.data, id, digest) == Lookup(e, w.store, id, digest)
  {
    hide Simulates, Read, Lookup, Lawful, AnchorTag, AnchorBody;
    AnchorsBound(e, b, w);
    ReadIsLookup(e, b, w, w.data, w.data, id, digest);
  }

  // ----- deletion -----

  /**
    Deleting a version makes exactly that version unresolvable, and the digest-less lookup of its id
    when it was latest; every other reference of every id, and every anchor, is untouched.
   */
  lemma DeleteIsolation(e: Env, b: Binding, w: World, so: StoredObject, now: int, id: string, digest: Option<Digest>)
    requires Lawful(e) && Simulates(e, b, w) && Enabled(e, b, w, Remove(so, now))
    ensures var d, d' := w.data, Apply(e, w.data, Remove(so, now));
            && Read(e, b, d', d', d', id, digest) ==
                 (if Denotes(w.store, id, digest, KeyOf(so)) then Err(NotFound) else Read(e, b, d, d, d, id, digest))
            && (AnchorTag(e, id) in d.tags <==> AnchorTag(e, id) in d'.tags)
            && (AnchorTag(e, id) in d.tags ==> d.tags[AnchorTag(e, id)] == d'.tags[AnchorTag(e, id)])
  {
    hide Lawful, Simulates, Read, AnchorTag, VersionTag, LatestTag, VersionBody, View, Apply, Enabled;
    var w' := Next(e, w, Remove(so, now));
    StepSimulates(e, b, w, Remove(so, now));
    ReadNow(e, b, w, id, digest);
    ReadNow(e, b, w', id, digest);
    EnabledRemove(e, b, w, so, now);
    AnchorsMatch(e, b, w, id);
    AnchorsMatch(e, b, w', id);
  }

  lemma EnabledRemove(e: Env, b: Binding, w: World, so: StoredObject, now: int)
    requires Enabled(e, b, w, Remove(so, now))
    ensures KeyOf(so) in w.store.versions && w.store.versions[KeyOf(so)] == so
  {
  }

  lemma AnchorsMatch(e: Env, b: Binding, w: World, id: string)
    requires Simulates(e, b, w)
    ensures AnchorTag(e, id) in w.data.tags <==> id in w.store.anchored
    ensures id in w.store.anchored ==> w.data.tags[AnchorTag(e, id)] == e.hash(AnchorBody(e, id))
  {
    assert AnchorAgrees(e, b, w, id);
  }

  /** The reference stands for version `k`. */
  predicate Denotes(st: Store, id: string, digest: Option<Digest>, k: Key) {
    id == k.id && (if digest.Some? then digest.value == k.digest else id in st.latest && st.latest[id] == k.digest)
  }

  // ----- truncated id hashes -----

  /** In every run a reader only ever gets the object and the bytes it named, colliding truncated hashes or not. */
  lemma NoCrossReads(e: Env, b: Binding, w: World, trace: Trace, i: nat, j: nat, k: nat, id: string,
                     digest: Option<Digest>)
    requires Lawful(e) && Simulates(e, b, w) && LawfulRun(e, b, w, trace) && i <= j <= k <= |trace|
    ensures var r := Read(e, b, At(e, w, trace, i).data, At(e, w, trace, j).data, At(e, w, trace, k).data, id, digest);
            r.Ok? ==>
              && r.value.stored.metadata.objectId == id
              && r.value.payload.digest == r.value.stored.metadata.digest
              && (digest.Some? ==> r.value.payload.digest == digest.value)
              && (forall n :: k <= n <= |trace| ==>
                    r.value.payload.digest in At(e, w, trace, n).data.blobs &&
                    e.hash(At(e, w, trace, n).data.blobs[r.value.payload.digest]) == r.value.payload.digest)
  {
    hide Lawful, Read, VersionBody, VersionTag, AnchorTag, LatestTag, AnchorBody, VersionManifest, At, LawfulRun;
    var wi := At(e, w, trace, i);
    SimulatesAt(e, b, w, trace, i);
    ReadersLinearize(e, b, w, trace, i, j, k, id, digest);
    assert forall k :: k in wi.store.versions ==> Complete(e, b, wi, k);
    if Lookup(e, wi.store, id, digest).Ok? {
      forall n | k <= n <= |trace|
        ensures Lookup(e, wi.store, id, digest).value.payload.digest in At(e, w, trace, n).data.blobs
        ensures var d := Lookup(e, wi.store, id, digest).value.payload.digest;
                e.hash(At(e, w, trace, n).data.blobs[d]) == d
      {
        PayloadStaysReadable(e, b, w, trace, i, n, id, digest);
      }
    }
  }

  /** No step rebinds the tag of a stored version; only the permitted delete of that version drops it. */
  lemma VersionTagNeverRebound(e: Env, b: Binding, w: World, ev: Event, k: Key)
    requires Lawful(e) && Simulates(e, b, w) && Enabled(e, b, w, ev) && k in w.store.versions
    ensures TagOf(e, k) in w.data.tags
    ensures if ev.Remove? && ev.stored == w.store.versions[k] then TagOf(e, k) !in Next(e, w, ev).data.tags
            else TagOf(e, k) in Next(e, w, ev).data.tags
                 && Next(e, w, ev).data.tags[TagOf(e, k)] == w.data.tags[TagOf(e, k)]
  {
    hide Lawful, VersionBody, VersionTag, AnchorTag, LatestTag, AnchorBody, Publishable, AnchorsAgree, LatestAgree;
    var w' := Next(e, w, ev);
    assert Complete(e, b, w, k);
    StepSimulates(e, b, w, ev);
    if !(ev.Remove? && ev.stored == w.store.versions[k]) {
      StepKeepsVersion(e, b, w, ev, k);
      assert Complete(e, b, w', k);
    }
  }

  // ----- anchors -----

  /** An id is anchored exactly when it was at the start or some step of the run bound its anchor. */
  lemma {:induction false} AnchoredIff(e: Env, w: World, trace: Trace, id: string)
    ensures id in Replay(e, w, trace).store.anchored <==> id in w.store.anchored || BindAnchor(id) in trace
  {
    hide Apply;
    if trace != [] {
      var front, last := trace[..|trace| - 1], trace[|trace| - 1];
      AnchoredIff(e, w, front, id);
      assert trace == front + [last];
      assert BindAnchor(id) in trace <==> BindAnchor(id) in front || BindAnchor(id) == last;
    }
  }

  /** In a delete-free run a latest pointer, once set, stays set. */
  lemma {:induction false} LatestStays(e: Env, w: World, trace: Trace, id: string)
    requires id in w.store.latest && forall n :: 0 <= n < |trace| ==> !trace[n].Remove?
    ensures id in Replay(e, w, trace).store.latest
  {
    hide Apply;
    if trace != [] {
      var front := trace[..|trace| - 1];
      assert forall n :: 0 <= n < |front| ==> front[n] == trace[n];
      LatestStays(e, w, front, id);
      assert !trace[|trace| - 1].Remove?;
    }
  }
}
