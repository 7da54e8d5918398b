/** A whole multipart upload against one put of the same bytes, on two equal repositories. */
module Equivalence {
  import opened Prelude
  import opened Models
  import opened Store
  import opened Runs
  import opened Plan
  import opened Journal
  import opened Payloads
  import opened Adapter
  import opened Multipart

  function Contents(parts: seq<Payload>): seq<Bytes> {
    seq(|parts|, n requires 0 <= n < |parts| => parts[n].Content())
  }

  ghost predicate AllWellChunked(parts: seq<Payload>) {
    forall n :: 0 <= n < |parts| ==> parts[n].WellChunked()
  }

  /** Parts that `upload_part` takes one after the other, and `complete_multipart` after them. */
  ghost predicate AcceptableParts(e: Env, b: Binding, partSize: nat, parts: seq<Payload>) {
    && |parts| <= b.maxMultipartParts
    && |Concat(Contents(parts))| <= b.maxObjectBytes
    && (forall n :: 0 <= n < |parts| ==> PartAccepted(e, b, partSize, 0, parts[n]))
    && (forall n :: 0 <= n < |parts| - 1 ==> 65536 <= |parts[n].Content()|)
  }

  /** With the parts before it uploaded, the next part is acceptable, and only then. */
  lemma NextPartAccepted(e: Env, b: Binding, partSize: nat, parts: seq<Payload>, i: nat)
    requires AcceptableParts(e, b, partSize, parts) && i < |parts|
    ensures PartAccepted(e, b, partSize, |Concat(Contents(parts[..i]))|, parts[i])
  {
    hide Concat;
    var all := Contents(parts);
    assert Contents(parts[..i]) == all[..i];
    ConcatTake(all, i);
    ConcatLonger(all, i + 1);
    assert PartAccepted(e, b, partSize, 0, parts[i]);
  }

  /** Upload all parts, in order, to a new session. */
  method UploadAll(m: Manager, session: Session, parts: seq<Payload>) returns (r: Result<seq<Part>>)
    requires m.Valid() && AllWellChunked(parts)
    requires m.StateOf(session).Some? && m.sessions[session.id].contents == [] && m.sessions[session.id].parts == []
    modifies m, m.adapter.transport, m.adapter.transport.registry`uploads
    ensures m.Valid() && m.adapter.Now() == old(m.adapter.Now())
    ensures old(m.adapter.transport.faults) <= m.adapter.transport.faults
    ensures r.Ok? ==>
              && m.StateOf(session).Some?
              && m.sessions[session.id].req == old(m.sessions[session.id]).req
              && m.sessions[session.id].contents == Contents(parts) && m.sessions[session.id].parts == r.value
              && |r.value| == |parts|
              && forall n :: 0 <= n < |parts| ==> r.value[n].identity.byteLength == |parts[n].Content()|
    ensures (m.adapter.transport.faults == old(m.adapter.transport.faults)
             && AcceptableParts(m.adapter.e, m.adapter.b, session.partSize, parts)) ==> r.Ok?
  {
    hide Simulates, Lawful, Replay, LawfulRun, IsJournal, InStep, Tracked, PartAccepted, PartRejection, Live,
      AcceptableParts;
    var done: seq<Part> := [];
    for i := 0 to |parts|
      invariant m.Valid() && m.adapter.Now() == old(m.adapter.Now())
      invariant old(m.adapter.transport.faults) <= m.adapter.transport.faults
      invariant m.StateOf(session).Some? && m.sessions[session.id].req == old(m.sessions[session.id]).req
      invariant m.sessions[session.id].contents == Contents(parts[..i]) && m.sessions[session.id].parts == done
      invariant |done| == i && forall n :: 0 <= n < i ==> done[n].identity.byteLength == |parts[n].Content()|
    {
      ghost var length := m.sessions[session.id].length;
      SessionIsLive(m.adapter.e, m.adapter.b, m.sessions, m.owners, m.adapter.transport.registry.uploads,
                    m.adapter.transport.Open(), session.id);
      LiveIdentity(m.adapter.e, m.adapter.b, m.adapter.transport.registry.uploads, m.sessions[session.id]);
      var part := m.UploadPart(session, i + 1, parts[i]);
      if part.Err? {
        Refused(m.adapter.e, m.adapter.b, session.partSize, parts, i, length, part.error);
        return Err(part.error);
      }
      assert Contents(parts[..i + 1]) == Contents(parts[..i]) + [parts[i].Content()];
      done := done + [part.value];
    }
    assert parts[..|parts|] == parts;
    r := Ok(done);
  }

  /** A part that is refused for a reason, or comes after too many others, is not among acceptable parts. */
  lemma Refused(e: Env, b: Binding, partSize: nat, parts: seq<Payload>, i: nat, length: nat, error: Error)
    requires i < |parts| && length == |Concat(Contents(parts[..i]))|
    ensures PartRejection(e, b, partSize, length, parts[i], error) || i + 1 > b.maxMultipartParts ==>
              !AcceptableParts(e, b, partSize, parts)
  {
    hide Concat, PartAccepted, PartRejection;
    if AcceptableParts(e, b, partSize, parts) {
      NextPartAccepted(e, b, partSize, parts, i);
      PartVerdicts(e, b, partSize, length, parts[i]);
    }
  }

  /**
    Begin, upload the parts in order, complete. Success has the result and the effects of a put of the
    concatenated bytes; without request failures, and with parts and declarations in order, the answer is
    that of the put in any case.
   */
  method PutInParts(m: Manager, req: PutRequest, token: string, parts: seq<Payload>, rejected: bool, begun: int,
                    now: int) returns (res: Result<Metadata>)
    requires m.Valid() && token !in m.sessions && AllWellChunked(parts)
    modifies m, m.adapter, m.adapter.transport, m.adapter.transport.registry
    ensures m.Valid() && old(m.adapter.transport.faults) <= m.adapter.transport.faults
    ensures var bytes := Concat(Contents(parts));
            var w := WithContent(m.adapter.e, old(m.adapter.Now()), bytes);
            var plan := CommitPlan(m.adapter.e, m.adapter.b, w, req, IdentityOf(m.adapter.e, bytes), now);
            && (res.Ok? ==> res == plan.outcome && m.adapter.Now() == Replay(m.adapter.e, w, plan.events))
            && ((m.adapter.transport.faults == old(m.adapter.transport.faults) && !rejected
                 && AcceptableParts(m.adapter.e, m.adapter.b, m.adapter.b.chunkSize, parts)
                 && Declares(m.adapter.e, req, bytes)) ==> res == plan.outcome)
  {
    hide Simulates, Lawful, Replay, LawfulRun, IsJournal, InStep, Tracked, CommitPlan, WithContent, Taken, Concat,
      AcceptableParts, CrashConsistent, IdentityOf, Declares;
    ghost var w, bytes := m.adapter.Now(), Concat(Contents(parts));
    TakenPlan(m.adapter.e, m.adapter.b, WithContent(m.adapter.e, w, bytes), req, IdentityOf(m.adapter.e, bytes), now);
    StoreOf(m.adapter.e, w, bytes);
    var session := m.BeginMultipart(req, token, begun);
    if session.Err? { return Err(session.error); }
    var uploaded := UploadAll(m, session.value, parts);
    if uploaded.Err? { return Err(uploaded.error); }
    LargeEnough(m.adapter.e, m.adapter.b, m.adapter.b.chunkSize, parts);
    res := m.CompleteMultipart(session.value, uploaded.value, rejected, now);
  }

  /**
    Begin, any ordered parts and a successful complete leave the same blobs, manifests, tags and
    abstract store, and return the same metadata, as a successful put of the concatenated bytes with
    the same input and commit time on an equal repository. Without request failures, and with parts and
    declarations in order, the two answer the same in any case, refusals included.
   */
  method MultipartMatchesPut(m: Manager, req: PutRequest, token: string, parts: seq<Payload>, rejected: bool,
                             begun: int, twin: Adapter, whole: Payload, now: int)
    returns (viaParts: Result<Metadata>, direct: Result<Metadata>)
    requires m.Valid() && token !in m.sessions && AllWellChunked(parts)
    requires twin.Valid() && whole.WellChunked() && whole.Content() == Concat(Contents(parts))
    requires twin != m.adapter && twin.transport != m.adapter.transport
    requires twin.transport.registry != m.adapter.transport.registry
    requires twin.e == m.adapter.e && twin.b == m.adapter.b && twin.Now() == m.adapter.Now()
    modifies m, m.adapter, m.adapter.transport, m.adapter.transport.registry, twin, twin.transport,
             twin.transport.registry
    ensures m.Valid() && twin.Valid()
    ensures viaParts.Ok? && direct.Ok? ==> viaParts == direct && m.adapter.Now() == twin.Now()
    ensures (twin.transport.faults == old(twin.transport.faults)
             && m.adapter.transport.faults == old(m.adapter.transport.faults)
             && AcceptableParts(twin.e, twin.b, twin.b.chunkSize, parts) && !rejected
             && Declares(twin.e, req, whole.Content()) && Accepted(twin.e, twin.b, whole)) ==> viaParts == direct
  {
    hide Simulates, Lawful, Replay, LawfulRun, IsJournal, InStep, Tracked, CommitPlan, WithContent, Taken, Concat,
      AcceptableParts, Accepted, Rejection, CrashConsistent, IdentityOf, Declares;
    ghost var sent;
    direct, sent := twin.Put(req, whole, now);
    viaParts := PutInParts(m, req, token, parts, rejected, begun, now);
  }

  lemma LargeEnough(e: Env, b: Binding, partSize: nat, parts: seq<Payload>)
    ensures AcceptableParts(e, b, partSize, parts) ==>
              forall n :: 0 <= n < |parts| - 1 ==> 65536 <= |parts[n].Content()|
  {
  }

  lemma StoreOf(e: Env, w: World, content: Bytes)
    ensures WithContent(e, w, content).store == w.store
  {
  }

  lemma TakenPlan(e: Env, b: Binding, w: World, req: PutRequest, content: Identity, now: int)
    ensures Taken(w.store, req) ==> CommitPlan(e, b, w, req, content, now) == Plan([], Err(Conflict(req)))
  {
  }
}
