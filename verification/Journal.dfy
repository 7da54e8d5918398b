/**
  The journal of put and multipart publications beside a run: which part of the run each one is, and
  whether it succeeded. Publish-once and create-only are statements about journals.
 */
module Journal {
  import opened Models
  import opened Naming
  import opened Store
  import opened Runs
  import opened Plan

  /** One publication: its request, the effects `trace[from..to]` it had, and whether it succeeded. */
  datatype Entry = Entry(req: PutRequest, from: nat, to: nat, ok: bool)

  /** What the adapter guarantees of one publication: the availability check passed at its start, and
      success means the latest alias was bound last and, for publish-once, the anchor in between. */
  predicate Explained(e: Env, w: World, trace: Trace, entry: Entry) {
    && entry.from <= entry.to <= |trace|
    && (entry.ok ==>
          && !Taken(At(e, w, trace, entry.from).store, entry.req)
          && entry.from < entry.to
          && trace[entry.to - 1].BindLatest?
          && trace[entry.to - 1].stored.metadata.objectId == entry.req.objectId
          && (entry.req.PublishOnce() ==> BindAnchor(entry.req.objectId) in trace[entry.from..entry.to]))
  }

  /** Publications are serialized by the write lock. */
  ghost predicate IsJournal(e: Env, w: World, trace: Trace, journal: seq<Entry>) {
    && (forall n :: 0 <= n < |journal| ==> Explained(e, w, trace, journal[n]))
    && (forall i, j :: 0 <= i < j < |journal| ==> journal[i].to <= journal[j].from)
  }

  lemma ExplainedLonger(e: Env, w: World, trace: Trace, more: Trace, entry: Entry)
    requires Explained(e, w, trace, entry)
    ensures Explained(e, w, trace + more, entry)
  {
    hide Taken, Replay;
    var longer := trace + more;
    assert longer[..entry.from] == trace[..entry.from];
    assert longer[entry.from..entry.to] == trace[entry.from..entry.to];
  }

  /** A longer run keeps the journal. */
  lemma JournalKept(e: Env, w: World, trace: Trace, more: Trace, journal: seq<Entry>)
    requires IsJournal(e, w, trace, journal)
    ensures IsJournal(e, w, trace + more, journal)
  {
    hide Explained;
    forall n | 0 <= n < |journal| ensures Explained(e, w, trace + more, journal[n]) {
      ExplainedLonger(e, w, trace, more, journal[n]);
    }
  }

  /** The newest publication may be added to the journal of the longer run. */
  lemma JournalGrows(e: Env, w: World, trace: Trace, more: Trace, journal: seq<Entry>, entry: Entry)
    requires IsJournal(e, w, trace, journal)
    requires Explained(e, w, trace + more, entry) && entry.from == |trace|
    ensures IsJournal(e, w, trace + more, journal + [entry])
  {
    hide Explained;
    JournalKept(e, w, trace, more, journal);
    forall n | 0 <= n < |journal| ensures journal[n].to <= |trace| { EntryInside(e, w, trace, journal[n]); }
  }

  lemma EntryInside(e: Env, w: World, trace: Trace, entry: Entry)
    requires Explained(e, w, trace, entry)
    ensures entry.from <= entry.to <= |trace|
  {
  }

  /**
    A publish-once publication succeeds only if nothing, failed attempts and deleted objects included,
    ever bound the anchor of its id.
   */
  lemma PublishOnceIsFirst(e: Env, w: World, trace: Trace, entry: Entry)
    requires Explained(e, w, trace, entry) && entry.ok && entry.req.PublishOnce()
    ensures entry.req.objectId !in w.store.anchored
    ensures BindAnchor(entry.req.objectId) !in trace[..entry.from]
  {
    AnchoredIff(e, w, trace[..entry.from], entry.req.objectId);
  }

  /** At most one publish-once publication of an id ever succeeds, whatever else happens in the run. */
  lemma AtMostOnePublishOnce(e: Env, w: World, trace: Trace, journal: seq<Entry>, i: nat, j: nat)
    requires IsJournal(e, w, trace, journal) && i < |journal| && j < |journal|
    requires journal[i].ok && journal[i].req.PublishOnce() && journal[j].ok && journal[j].req.PublishOnce()
    requires journal[i].req.objectId == journal[j].req.objectId
    ensures i == j
  {
    if i < j {
      SecondPublishOnceFails(e, w, trace, journal[i], journal[j]);
    } else if j < i {
      SecondPublishOnceFails(e, w, trace, journal[j], journal[i]);
    }
  }

  lemma SecondPublishOnceFails(e: Env, w: World, trace: Trace, first: Entry, second: Entry)
    requires Explained(e, w, trace, first) && Explained(e, w, trace, second) && first.to <= second.from
    requires first.req.objectId == second.req.objectId
    requires first.ok && first.req.PublishOnce()
    ensures !(second.ok && second.req.PublishOnce())
  {
    var anchor := BindAnchor(first.req.objectId);
    var n :| first.from <= n < first.to && trace[n] == anchor;
    assert trace[..second.from][n] == anchor;
    AnchoredIff(e, w, trace[..second.from], first.req.objectId);
  }

  /** Without a delete in between, an exclusive publication fails after any successful one of the same id. */
  lemma ExclusiveAfterSuccessFails(e: Env, b: Binding, w: World, trace: Trace, journal: seq<Entry>, i: nat, j: nat)
    requires Lawful(e) && Simulates(e, b, w) && LawfulRun(e, b, w, trace) && IsJournal(e, w, trace, journal)
    requires i < j < |journal| && journal[i].ok
    requires journal[j].req.createOnly
             || (journal[j].req.immutability.Some? && journal[j].req.immutability.value.publishOnce)
    requires journal[i].req.objectId == journal[j].req.objectId
    requires forall n :: journal[i].to <= n < journal[j].from ==> !trace[n].Remove?
    ensures !journal[j].ok
  {
    hide Lawful, Simulates, LawfulRun, Taken, Explained;
    var first, second, id := journal[i], journal[j], journal[i].req.objectId;
    EntryInside(e, w, trace, first);
    EntryInside(e, w, trace, second);
    LatestSetBy(e, w, trace, first);
    LatestReaches(e, b, w, trace, id, first.to, second.from);
    SimulatesAt(e, b, w, trace, second.from);
    LatestIsAnchored(e, b, At(e, w, trace, second.from), id);
    TakenNow(e, w, trace, second);
  }

  lemma TakenNow(e: Env, w: World, trace: Trace, entry: Entry)
    requires Explained(e, w, trace, entry) && entry.req.Exclusive()
    requires entry.req.objectId in At(e, w, trace, entry.from).store.latest
    requires entry.req.objectId in At(e, w, trace, entry.from).store.anchored
    ensures !entry.ok
  {
  }

  lemma LatestIsAnchored(e: Env, b: Binding, w: World, id: string)
    requires Simulates(e, b, w) && id in w.store.latest
    ensures id in w.store.anchored
  {
    hide VersionBody, VersionTag, LatestTag, AnchorTag;
    assert AliasAgrees(e, w, id);
    assert Complete(e, b, w, Key(id, w.store.latest[id]));
  }

  lemma LatestSetBy(e: Env, w: World, trace: Trace, entry: Entry)
    requires Explained(e, w, trace, entry) && entry.ok
    ensures entry.req.objectId in At(e, w, trace, entry.to).store.latest
  {
    hide Apply, Taken;
    var t := trace[..entry.to];
    assert t[|t| - 1] == trace[entry.to - 1];
  }

  lemma LatestReaches(e: Env, b: Binding, w: World, trace: Trace, id: string, i: nat, j: nat)
    requires LawfulRun(e, b, w, trace) && i <= j <= |trace| && id in At(e, w, trace, i).store.latest
    requires forall n :: i <= n < j ==> !trace[n].Remove?
    ensures id in At(e, w, trace, j).store.latest
  {
    hide Next, LawfulRun;
    LawfulPart(e, b, w, trace, i, j);
    assert forall n :: 0 <= n < j - i ==> trace[i..j][n] == trace[i + n];
    LatestStays(e, At(e, w, trace, i), trace[i..j], id);
  }

  /** A successful plan ends with the latest alias and, for publish-once, binds the anchor. */
  lemma PlanEnds(e: Env, b: Binding, w: World, req: PutRequest, content: Identity, now: int)
    requires Simulates(e, b, w) && CommitPlan(e, b, w, req, content, now).outcome.Ok?
    ensures var t := CommitPlan(e, b, w, req, content, now).events;
            && !Taken(w.store, req) && t != [] && t[|t| - 1].BindLatest?
            && t[|t| - 1].stored.metadata.objectId == req.objectId
            && (req.PublishOnce() ==> BindAnchor(req.objectId) in t)
  {
    hide VersionBody, VersionTag, AnchorTag, AnchorBody, LatestTag, Replay, BlobPlan, Publishable;
    var key := Key(req.objectId, content.digest);
    if key in w.store.versions { assert Complete(e, b, w, key); }
    if req.PublishOnce() {
      var so := NewStored(b, req, content, now);
      var anchor := AnchorPlan(e, b, w, req.objectId);
      assert anchor[|anchor| - 1] == BindAnchor(req.objectId);
      assert Groundwork(e, b, w, req, so)[|anchor| - 1] == BindAnchor(req.objectId);
      assert CommitPlan(e, b, w, req, content, now).events[|anchor| - 1] == BindAnchor(req.objectId);
    }
  }

  /** A completed publication, payload upload included, is explained by its part of the run. */
  lemma PublicationExplained(e: Env, b: Binding, origin: World, before: Trace, sent: Trace, w: World,
                             req: PutRequest, content: Identity, now: int)
    requires Simulates(e, b, w) && CommitPlan(e, b, w, req, content, now).outcome.Ok?
    requires Replay(e, origin, before).store == w.store
    ensures var trace := before + sent + CommitPlan(e, b, w, req, content, now).events;
            Explained(e, origin, trace, Entry(req, |before|, |trace|, true))
  {
    hide Simulates, Taken, CommitPlan, Replay;
    PlanEnds(e, b, w, req, content, now);
    var plan := CommitPlan(e, b, w, req, content, now).events;
    var trace := before + sent + plan;
    assert trace[..|before|] == before;
    assert trace[|before|..|trace|] == sent + plan;
  }
}
