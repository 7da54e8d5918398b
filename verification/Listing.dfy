/** `_list` (adapter.py): one page of versions, and what following its cursors returns. */
module Listing {
  import opened Prelude
  import opened Models
  import opened Naming
  import opened Store
  import opened Resolve
  import opened Runs
  import opened Journal
  import opened Transport
  import opened Adapter
  import opened Ordering
  import opened Paging
  import Cursor

  /** What a tag stands for, its manifest read from `atTag` and its config from `atConfig`. */
  function EntryBetween(e: Env, b: Binding, atTag: Data, atConfig: Data, t: Tag): Result<Resolved> {
    match FetchManifest(e, b, atTag, t)
    case Err(error) => Err(error)
    case Ok(doc) => StoredFrom(e, b, atConfig, doc)
  }

  function EntryAt(e: Env, b: Binding, d: Data, t: Tag): Result<Resolved> { EntryBetween(e, b, d, d, t) }

  /** How a scan reads each tag. */
  type Reader = Tag -> Result<Resolved>

  function EntriesAt(e: Env, b: Binding, d: Data): Reader { t => EntryAt(e, b, d, t) }

  predicate IsHit(read: Reader, prefix: string, t: Tag) {
    IsVersionTag(t) && read(t).Ok? && prefix <= read(t).value.stored.metadata.objectId
  }

  predicate HitAt(e: Env, b: Binding, d: Data, prefix: string, t: Tag) { IsHit(EntriesAt(e, b, d), prefix, t) }

  function ViewOf(e: Env, b: Binding, d: Data, prefix: string): TagView {
    TagView(d.tags.Keys, t => HitAt(e, b, d, prefix, t))
  }

  /** Every version tag of a repository that represents a store reads as its owner. */
  lemma EntryOf(e: Env, b: Binding, w: World, t: Tag) returns (k: Key)
    requires Lawful(e) && Simulates(e, b, w) && t in w.data.tags && IsVersionTag(t)
    ensures k in w.store.versions && TagOf(e, k) == t && KeyOf(w.store.versions[k]) == k
    ensures EntryAt(e, b, w.data, t) == Ok(View(e, w.store.versions[k]))
  {
    hide VersionTag, AnchorTag, LatestTag, VersionManifest, StoredFrom, FetchManifest, Lawful;
    assert Owned(e, w.store, t);
    k :| k in w.store.versions && TagOf(e, k) == t;
    assert Complete(e, b, w, k);
    var so := w.store.versions[k];
    FetchBound(e, b, w.data, t, VersionManifest(e, so));
    StoredFromVersion(e, b, w.data, so);
  }

  /** The hits of a listing are the tags of exactly the stored versions whose id has the prefix. */
  lemma HitIff(e: Env, b: Binding, w: World, prefix: string, k: Key)
    requires Lawful(e) && Simulates(e, b, w)
    ensures k in w.store.versions ==>
              TagOf(e, k) in w.data.tags && (HitAt(e, b, w.data, prefix, TagOf(e, k)) <==> prefix <= k.id)
  {
    hide VersionTag, AnchorTag, LatestTag, VersionManifest, EntryAt, Lawful, VersionBody;
    if k in w.store.versions {
      assert Complete(e, b, w, k);
      TagFamiliesDisjoint(e, "", k.id, k.digest);
      var o := EntryOf(e, b, w, TagOf(e, k));
      SameTagSameVersion(e, b, w, o, k);
    }
  }

  datatype ListPage = ListPage(items: seq<Metadata>, cursor: Option<string>)

  /** The metadata of listed tags. */
  ghost predicate Describes(read: Reader, items: seq<Metadata>, tags: seq<Tag>) {
    |items| == |tags| &&
    forall n :: 0 <= n < |tags| ==> read(tags[n]).Ok? && items[n] == read(tags[n]).value.stored.metadata
  }

  /** The tag a cursor carries. */
  function LastTag(codec: Cursor.Codec, cursor: Option<string>): Option<Tag> {
    if cursor.None? || Cursor.Decode(codec, cursor.value).Err? then None
    else Some(Cursor.Decode(codec, cursor.value).value)
  }

  /** `_list`: one page after the decoded cursor, with the next cursor encoding the last tag it scanned. */
  method List(a: Adapter, codec: Cursor.Codec, prefix: string, limit: nat, cursor: Option<string>)
    returns (r: Result<ListPage>, ghost page: Page)
    requires a.Valid() && limit > 0
    modifies a.transport`faults
    ensures a.Valid() && a.Now() == old(a.Now()) && old(a.transport.faults) <= a.transport.faults
    ensures r.Ok? ==>
              var last := LastTag(codec, cursor);
              var d := a.Now().data;
              && (cursor.Some? ==> Cursor.Decode(codec, cursor.value).Ok?)
              && page == PageOf(ViewOf(a.e, a.b, d, prefix).hit, ListAfter(d.tags.Keys, last), a.b.maxScanTags, limit)
              && Describes(EntriesAt(a.e, a.b, d), r.value.items, page.items)
              && r.value.cursor == (if page.next.None? then None else Some(Cursor.Encode(codec, page.next.value)))
    ensures r.Err? && a.transport.faults == old(a.transport.faults) ==>
              cursor.Some? && Cursor.Decode(codec, cursor.value).Err?
  {
    hide Simulates, Lawful, Replay, LawfulRun, IsJournal, Cursor.Decode, Cursor.Encode, EntryAt, ViewOf, HitAt,
      Describes, Scanned, Hits, Enumerates;
    page := Page([], None);
    var last: Option<Tag> := None;
    if cursor.Some? {
      var decoded := Cursor.Decode(codec, cursor.value);
      if decoded.Err? { return Err(decoded.error), page; }
      last := Some(decoded.value);
    }
    var scan := a.transport.ListTags(a.b.maxScanTags, last);
    if scan.Err? { return Err(scan.error), page; }
    var tags := scan.value.tags;
    ghost var q := ListAfter(a.Now().data.tags.Keys, last);
    ListedArePresent(a.Now().data.tags.Keys, last, a.b.maxScanTags);
    var items, n, failure;
    items, n, failure := ScanPage(a.transport, a.Now(), prefix, limit, tags);
    if failure.Some? { return Err(failure.value), page; }
    page := PageOf(ViewOf(a.e, a.b, a.Now().data, prefix).hit, q, a.b.maxScanTags, limit);
    DescribedLength(EntriesAt(a.e, a.b, a.Now().data), items, page.items);
    var more := n > 0 && (|items| == limit || scan.value.hasMore);
    var next := if more then Some(Cursor.Encode(codec, tags[n - 1])) else None;
    r := Ok(ListPage(items, next));
  }

  /** Reading one listed tag: the manifest, then its config. */
  method ReadEntry(c: Transport, t: Tag) returns (r: Result<Resolved>)
    requires c.Valid()
    modifies c`faults
    ensures old(c.faults) <= c.faults
    ensures r == EntryAt(c.e, c.b, c.registry.Snapshot(), t) || (r.Err? && old(c.faults) < c.faults)
  {
    hide FetchManifest, FetchBlob, Checked, ManifestDescriptors;
    var doc := c.GetManifest(t);
    if doc.Err? { return Err(doc.error); }
    var parts := ManifestDescriptors(doc.value.value);
    if parts.None? { return Err(DigestMismatch); }
    var bytes := c.GetBlobBytes(parts.value.0, c.b.maxMetadataBytes);
    if bytes.Err? { return Err(bytes.error); }
    r := Checked(c.e, doc.value, parts.value.1, bytes.value);
  }

  /** The scanning loop of `_list`; `n` tags were scanned. */
  method ScanPage(c: Transport, ghost w: World, prefix: string, limit: nat, tags: seq<Tag>)
    returns (items: seq<Metadata>, n: nat, failure: Option<Error>)
    requires c.Valid() && limit > 0 && Lawful(c.e) && Simulates(c.e, c.b, w) && w.data == c.registry.Snapshot()
    requires forall i :: 0 <= i < |tags| ==> tags[i] in w.data.tags
    modifies c`faults
    ensures old(c.faults) <= c.faults
    ensures failure.Some? ==> old(c.faults) < c.faults
    ensures failure.None? ==>
              var hit := ViewOf(c.e, c.b, w.data, prefix).hit;
              && n == Scanned(hit, tags, limit)
              && Describes(EntriesAt(c.e, c.b, w.data), items, Hits(hit, tags[..n]))
  {
    hide Simulates, Lawful, EntryAt, Hits, ViewOf, HitAt, Describes, Scanned, IsVersionTag;
    ghost var d := w.data;
    ghost var hit := ViewOf(c.e, c.b, d, prefix).hit;
    items, n, failure := [], 0, None;
    var stopped := false;
    NoHits(hit, tags);
    NoneDescribed(EntriesAt(c.e, c.b, d));
    while n < |tags| && !stopped && failure.None?
      invariant n <= |tags| && old(c.faults) <= c.faults
      invariant failure.Some? ==> old(c.faults) < c.faults
      invariant failure.None? ==> Describes(EntriesAt(c.e, c.b, d), items, Hits(hit, tags[..n]))
      invariant failure.None? && !stopped ==>
                  |items| < limit && Scanned(hit, tags, limit) == n + Scanned(hit, tags[n..], limit - |items|)
      invariant failure.None? && stopped ==> Scanned(hit, tags, limit) == n
      decreases |tags| - n, failure.None?
    {
      var t := tags[n];
      StepScan(hit, tags, n, limit - |items|);
      var found := ScanTag(c, w, prefix, t);
      if found.Err? {
        failure := Some(found.error);
      } else {
        if found.value.Some? {
          DescribesMore(EntriesAt(c.e, c.b, d), items, Hits(hit, tags[..n]), t);
          items := items + [found.value.value];
        }
        stopped := |items| == limit;
        n := n + 1;
      }
    }
  }

  /** One tag of the scan: skipped unless it is a version tag, kept when the object id has the prefix. */
  method ScanTag(c: Transport, ghost w: World, prefix: string, t: Tag) returns (r: Result<Option<Metadata>>)
    requires c.Valid() && Lawful(c.e) && Simulates(c.e, c.b, w) && w.data == c.registry.Snapshot() && t in w.data.tags
    modifies c`faults
    ensures old(c.faults) <= c.faults && (r.Err? ==> old(c.faults) < c.faults)
    ensures r.Ok? ==> (r.value.Some? <==> ViewOf(c.e, c.b, w.data, prefix).hit(t))
    ensures r.Ok? && r.value.Some? ==>
              EntryAt(c.e, c.b, w.data, t).Ok? && r.value.value == EntryAt(c.e, c.b, w.data, t).value.stored.metadata
  {
    hide Simulates, Lawful, EntryAt, ViewOf, HitAt, IsVersionTag;
    HitKnown(c.e, c.b, w.data, prefix, t);
    if !IsVersionTag(t) { return Ok(None); }
    ghost var k := EntryOf(c.e, c.b, w, t);
    var entry := ReadEntry(c, t);
    if entry.Err? { return Err(entry.error); }
    var m := entry.value.stored.metadata;
    r := Ok(if prefix <= m.objectId then Some(m) else None);
  }

  lemma HitKnown(e: Env, b: Binding, d: Data, prefix: string, t: Tag)
    ensures ViewOf(e, b, d, prefix).hit(t) <==>
            IsVersionTag(t) && EntryAt(e, b, d, t).Ok? && prefix <= EntryAt(e, b, d, t).value.stored.metadata.objectId
  {
  }

  lemma ListedArePresent(tags: set<Tag>, last: Option<Tag>, n: nat)
    ensures forall i :: 0 <= i < |Window(ListAfter(tags, last), n)| ==> Window(ListAfter(tags, last), n)[i] in tags
  {
    var q := ListAfter(tags, last);
    assert forall i :: 0 <= i < |q| ==> q[i] in q;
  }

  lemma DescribedLength(read: Reader, items: seq<Metadata>, tags: seq<Tag>)
    requires Describes(read, items, tags)
    ensures |items| == |tags|
  {
  }

  lemma NoneDescribed(read: Reader)
    ensures Describes(read, [], [])
  {
  }

  lemma DescribesMore(read: Reader, items: seq<Metadata>, tags: seq<Tag>, t: Tag)
    requires Describes(read, items, tags) && read(t).Ok?
    ensures Describes(read, items + [read(t).value.stored.metadata], tags + [t])
  {
  }

  lemma NoHits(hit: Tag -> bool, tags: seq<Tag>)
    ensures Hits(hit, tags[..0]) == [] && tags[0..] == tags
  {
  }

  /** Scanning one more tag. */
  lemma StepScan(hit: Tag -> bool, tags: seq<Tag>, n: nat, room: nat)
    requires n < |tags| && room > 0
    ensures Hits(hit, tags[..n + 1]) == if hit(tags[n]) then Hits(hit, tags[..n]) + [tags[n]] else Hits(hit, tags[..n])
    ensures Scanned(hit, tags[n..], room) ==
            if !hit(tags[n]) then 1 + Scanned(hit, tags[n + 1..], room)
            else if room == 1 then 1 else 1 + Scanned(hit, tags[n + 1..], room - 1)
    ensures tags[|tags|..] == [] && Scanned(hit, [], room) == 0
  {
    assert tags[..n + 1] == tags[..n] + [tags[n]];
    HitsSplit(hit, tags[..n], [tags[n]]);
    assert [tags[n]][1..] == [] && tags[n..][1..] == tags[n + 1..];
  }

  /** The cursor of a page continues exactly where the page stopped, for every grammatical tag. */
  lemma CursorContinues(codec: Cursor.Codec, next: Tag)
    requires Cursor.ParsesBack(codec) && Cursor.ValidTag(next)
    ensures LastTag(codec, Some(Cursor.Encode(codec, next))) == Some(next)
    ensures Cursor.Decode(codec, Cursor.Encode(codec, next)).Ok?
  {
    Cursor.CursorRoundTrip(codec, next);
  }

  /** A SHA-256 digest in hexadecimal. */
  predicate IsHex(digest: Digest) {
    |digest| == 64 && forall i :: 0 <= i < 64 ==> '0' <= digest[i] <= '9' || 'a' <= digest[i] <= 'f'
  }

  /** The adapter's own tags are grammatical, so a page that stops at any of them can be continued. */
  lemma OwnTagsContinue(e: Env, codec: Cursor.Codec, id: string, digest: Digest)
    requires Cursor.ParsesBack(codec) && IsHex(IdHash(e, id)) && IsHex(digest)
    ensures forall t :: t in {AnchorTag(e, id), LatestTag(e, id), VersionTag(e, id, digest)} ==>
              Cursor.ValidTag(t) && Cursor.Decode(codec, Cursor.Encode(codec, t)) == Ok(t)
  {
    hide Cursor.Decode, Cursor.Encode;
    forall t | t in {AnchorTag(e, id), LatestTag(e, id), VersionTag(e, id, digest)}
      ensures Cursor.ValidTag(t) && Cursor.Decode(codec, Cursor.Encode(codec, t)) == Ok(t)
    {
      assert t[0] == 'm' && t[1] == '-' && t[3] == '1' && t[4] == '-';
      Cursor.CursorRoundTrip(codec, t);
    }
  }

  /**
    Follow cursors to the end: `List` with the cursor it returned until there is none. On a repository at
    rest this ends and returns the versions of the full filtered scan, in tag order; only a failing request
    stops it.
   */
  method ListAll(a: Adapter, codec: Cursor.Codec, prefix: string, limit: nat) returns (r: Result<seq<Metadata>>)
    requires a.Valid() && limit > 0 && a.b.maxScanTags > 0 && Cursor.ParsesBack(codec)
    requires forall t :: t in a.Now().data.tags ==> Cursor.ValidTag(t)
    modifies a.transport`faults
    ensures a.Valid() && a.Now() == old(a.Now())
    ensures r.Ok? ==>
              var view := ViewOf(a.e, a.b, a.Now().data, prefix);
              Describes(EntriesAt(a.e, a.b, a.Now().data), r.value, Hits(view.hit, ListAfter(view.tags, None)))
    ensures r.Err? ==> old(a.transport.faults) < a.transport.faults
  {
    hide Simulates, Lawful, Replay, LawfulRun, IsJournal, Cursor.Decode, Cursor.Encode, EntriesAt, HitAt, Describes,
      Hits, PageOf, LastTag, Enumerates, Cursor.ParsesBack, Cursor.ValidTag, ViewOf, After;
    ghost var view, read := ViewOf(a.e, a.b, a.Now().data, prefix), EntriesAt(a.e, a.b, a.Now().data);
    ghost var done, last: Option<Tag> := [], None;
    var items, cursor: Option<string>, more := [], None, true;
    NoneDescribed(read);
    NoLastTag(codec);
    ViewTags(a.e, a.b, a.Now().data, prefix);
    while more
      invariant a.Valid() && a.Now() == old(a.Now()) && old(a.transport.faults) <= a.transport.faults
      invariant Describes(read, items, done) && LastTag(codec, cursor) == last
      invariant cursor.Some? ==> Cursor.Decode(codec, cursor.value).Ok?
      invariant Hits(view.hit, ListAfter(view.tags, None)) ==
                done + (if more then Hits(view.hit, ListAfter(view.tags, last)) else [])
      decreases more, |ListAfter(view.tags, last)|
    {
      ghost var page;
      var listed;
      listed, page := List(a, codec, prefix, limit, cursor);
      if listed.Err? { return Err(listed.error); }
      NextPage(codec, view, last, a.b.maxScanTags, limit, done);
      DescribesJoin(read, items, done, listed.value.items, page.items);
      items, done, last := items + listed.value.items, done + page.items, page.next;
      cursor, more := listed.value.cursor, listed.value.cursor.Some?;
    }
    assert done + [] == done;
    r := Ok(items);
  }

  /** What a page leaves to be listed, and that its cursor takes up there. */
  lemma NextPage(codec: Cursor.Codec, view: TagView, last: Option<Tag>, window: nat, limit: nat, done: seq<Tag>)
    requires window > 0 && limit > 0 && Cursor.ParsesBack(codec) && forall t :: t in view.tags ==> Cursor.ValidTag(t)
    ensures var page := PageOf(view.hit, ListAfter(view.tags, last), window, limit);
            && done + Hits(view.hit, ListAfter(view.tags, last)) ==
                 done + page.items + (if page.next.Some? then Hits(view.hit, ListAfter(view.tags, page.next)) else [])
            && (page.next.Some? ==>
                  && |ListAfter(view.tags, page.next)| < |ListAfter(view.tags, last)|
                  && Cursor.Decode(codec, Cursor.Encode(codec, page.next.value)).Ok?
                  && LastTag(codec, Some(Cursor.Encode(codec, page.next.value))) == page.next)
  {
    hide PageOf, Hits, Cursor.Decode, Cursor.Encode, Cursor.ParsesBack, Cursor.ValidTag, LastTag, Enumerates;
    var page := PageOf(view.hit, ListAfter(view.tags, last), window, limit);
    PageCut(view, last, window, limit);
    if page.next.Some? {
      PageExact(view, last, window, limit, page.next.value);
      CursorContinues(codec, page.next.value);
    }
  }

  lemma ViewTags(e: Env, b: Binding, d: Data, prefix: string)
    ensures ViewOf(e, b, d, prefix).tags == d.tags.Keys
  {
  }

  lemma NoLastTag(codec: Cursor.Codec)
    ensures LastTag(codec, None) == None
  {
  }

  lemma DescribesJoin(read: Reader, items: seq<Metadata>, tags: seq<Tag>, more: seq<Metadata>, next: seq<Tag>)
    requires Describes(read, items, tags) && Describes(read, more, next)
    ensures Describes(read, items + more, tags + next)
  {
  }
}
