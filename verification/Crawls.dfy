/**
  Listings that take no lock: the tag list and the reads of each listed tag meet whatever states the
  writers have reached by then, within a page and between pages.
 */
module Crawls {
  import opened Prelude
  import opened Models
  import opened Naming
  import opened Store
  import opened Resolve
  import opened Runs
  import opened Ordering
  import opened Paging
  import opened Listing

  // ----- the scanning loop as a function of what it reads -----

  /** The loop of `_list` over the tags of one page: what it found, and how many tags it scanned. */
  function Scan(read: Reader, prefix: string, tags: seq<Tag>, room: nat): Result<(seq<Metadata>, nat)> {
    if tags == [] then Ok(([], 0))
    else if IsVersionTag(tags[0]) && read(tags[0]).Err? then Err(read(tags[0]).error)
    else if !IsHit(read, prefix, tags[0]) then Counted([], Scan(read, prefix, tags[1..], room))
    else
      var found := [read(tags[0]).value.stored.metadata];
      if room <= 1 then Ok((found, 1)) else Counted(found, Scan(read, prefix, tags[1..], room - 1))
  }

  function Counted(found: seq<Metadata>, rest: Result<(seq<Metadata>, nat)>): Result<(seq<Metadata>, nat)> {
    if rest.Err? then rest else Ok((found + rest.value.0, rest.value.1 + 1))
  }

  function HitsOf(read: Reader, prefix: string): Tag -> bool { t => IsHit(read, prefix, t) }

  /** Every version tag in `tags` can be read. */
  ghost predicate AllRead(read: Reader, tags: seq<Tag>) {
    forall n :: 0 <= n < |tags| && IsVersionTag(tags[n]) ==> read(tags[n]).Ok?
  }

  /** The loop finds the hits up to where it stops, or fails on a version tag it cannot read before that. */
  lemma {:induction false} ScanExact(read: Reader, prefix: string, tags: seq<Tag>, room: nat)
    requires room > 0
    requires forall t :: IsVersionTag(t) && read(t).Err? ==> read(t).error == NotFound
    ensures var hit := HitsOf(read, prefix);
            var n := Scanned(hit, tags, room);
            if AllRead(read, tags[..n])
            then Scan(read, prefix, tags, room).Ok? && Scan(read, prefix, tags, room).value.1 == n
                 && Describes(read, Scan(read, prefix, tags, room).value.0, Hits(hit, tags[..n]))
            else Scan(read, prefix, tags, room) == Err(NotFound)
  {
    var hit := HitsOf(read, prefix);
    var n := Scanned(hit, tags, room);
    if tags != [] {
      var t, rest := tags[0], tags[1..];
      assert n > 0 && tags[..n] == [t] + rest[..n - 1];
      AllReadFirst(read, t, rest[..n - 1]);
      if IsVersionTag(t) && read(t).Err? {
        assert !hit(t);
      } else if !hit(t) {
        ScanExact(read, prefix, rest, room);
      } else if room > 1 {
        ScanExact(read, prefix, rest, room - 1);
      }
    }
  }

  lemma AllReadFirst(read: Reader, t: Tag, rest: seq<Tag>)
    ensures AllRead(read, [t] + rest) <==> (IsVersionTag(t) ==> read(t).Ok?) && AllRead(read, rest)
  {
    var tags := [t] + rest;
    assert tags[0] == t && forall n :: 0 <= n < |rest| ==> tags[n + 1] == rest[n];
  }

  // ----- one page during a run -----

  /**
    The states that the requests of one listing met: the tag list after the first `listed` effects of the
    run, and for each tag its manifest and its config after `manifest(tag)` and `config(tag)` effects.
   */
  datatype Moments = Moments(listed: nat, manifest: Tag -> nat, config: Tag -> nat)

  ghost predicate Within(m: Moments, trace: Trace) {
    m.listed <= |trace| && forall t :: m.listed <= m.manifest(t) <= m.config(t) <= |trace|
  }

  ghost function EntriesDuring(e: Env, b: Binding, w: World, trace: Trace, m: Moments): Reader
    requires Within(m, trace)
  {
    t => EntryBetween(e, b, At(e, w, trace, m.manifest(t)).data, At(e, w, trace, m.config(t)).data, t)
  }

  ghost function ViewDuring(e: Env, b: Binding, w: World, trace: Trace, m: Moments, prefix: string): TagView
    requires Within(m, trace)
  {
    TagView(At(e, w, trace, m.listed).data.tags.Keys, HitsOf(EntriesDuring(e, b, w, trace, m), prefix))
  }

  datatype ReadPage = ReadPage(items: seq<Metadata>, next: Option<Tag>)

  /** `_list` after the cursor tag `last`, its requests meeting the states `m`. */
  ghost function ListDuring(e: Env, b: Binding, w: World, trace: Trace, m: Moments, prefix: string,
                            last: Option<Tag>, window: nat, limit: nat): Result<ReadPage>
    requires Within(m, trace)
  {
    var read := EntriesDuring(e, b, w, trace, m);
    var q := ListAfter(At(e, w, trace, m.listed).data.tags.Keys, last);
    var tags := Window(q, window);
    match Scan(read, prefix, tags, limit)
    case Err(error) => Err(error)
    case Ok((items, n)) =>
      ScanWithin(read, prefix, tags, limit);
      Ok(ReadPage(items, if n > 0 && (|items| == limit || |q| >= window) then Some(tags[n - 1]) else None))
  }

  lemma {:induction false} ScanWithin(read: Reader, prefix: string, tags: seq<Tag>, room: nat)
    ensures Scan(read, prefix, tags, room).Ok? ==> Scan(read, prefix, tags, room).value.1 <= |tags|
  {
    if tags != [] {
      ScanWithin(read, prefix, tags[1..], room);
      if room > 0 { ScanWithin(read, prefix, tags[1..], room - 1); }
    }
  }

  /**
    Reading one listed tag linearizes at its manifest request: it finds the version that then had the tag,
    or nothing when none had it.
   */
  lemma EntryLinearizes(e: Env, b: Binding, w: World, trace: Trace, j: nat, k: nat, t: Tag)
    requires Lawful(e) && Simulates(e, b, w) && LawfulRun(e, b, w, trace) && j <= k <= |trace| && IsVersionTag(t)
    ensures var atTag, atConfig := At(e, w, trace, j), At(e, w, trace, k);
            && EntryBetween(e, b, atTag.data, atConfig.data, t) == EntryAt(e, b, atTag.data, t)
            && (t in atTag.data.tags <==> EntryAt(e, b, atTag.data, t).Ok?)
            && (t !in atTag.data.tags ==> EntryAt(e, b, atTag.data, t) == Err(NotFound))
  {
    hide Simulates, Lawful, LawfulRun, IsVersionTag, At, StoredFrom, FetchManifest;
    var wj, wk := At(e, w, trace, j), At(e, w, trace, k);
    SimulatesAt(e, b, w, trace, j);
    if t in wj.data.tags {
      LawfulPart(e, b, w, trace, j, k);
      RunKeeps(e, b, wj, trace[j..k]);
      EntryElsewhere(e, b, wj, wk.data, t);
    } else {
      MissingTag(e, b, wj.data, t);
    }
  }

  lemma MissingTag(e: Env, b: Binding, d: Data, t: Tag)
    requires t !in d.tags
    ensures FetchManifest(e, b, d, t) == Err(NotFound)
  {
  }

  /** A version tag reads as its owner wherever the blobs of that moment are still held. */
  lemma EntryElsewhere(e: Env, b: Binding, w: World, atConfig: Data, t: Tag)
    requires Lawful(e) && Simulates(e, b, w) && t in w.data.tags && IsVersionTag(t)
    requires forall d :: d in w.data.blobs ==> d in atConfig.blobs && atConfig.blobs[d] == w.data.blobs[d]
    ensures EntryBetween(e, b, w.data, atConfig, t) == EntryAt(e, b, w.data, t) && EntryAt(e, b, w.data, t).Ok?
  {
    hide VersionTag, AnchorTag, LatestTag, VersionManifest, StoredFrom, FetchManifest, Lawful, EntryAt;
    var k := EntryOf(e, b, w, t);
    assert Complete(e, b, w, k);
    var so := w.store.versions[k];
    FetchBound(e, b, w.data, t, VersionManifest(e, so));
    StoredFromVersion(e, b, atConfig, so);
  }

  /**
    Exactly what a lock-free listing returns: if every version tag it scans is still bound when its
    manifest is read, the page of the hits at those moments; otherwise not found.
   */
  lemma ListingExact(e: Env, b: Binding, w: World, trace: Trace, m: Moments, prefix: string, last: Option<Tag>,
                     window: nat, limit: nat)
    requires Lawful(e) && Simulates(e, b, w) && LawfulRun(e, b, w, trace) && Within(m, trace) && limit > 0
    ensures var view := ViewDuring(e, b, w, trace, m, prefix);
            var q := ListAfter(view.tags, last);
            var scanned := Window(q, window)[..Scanned(view.hit, Window(q, window), limit)];
            var page := PageOf(view.hit, q, window, limit);
            var r := ListDuring(e, b, w, trace, m, prefix, last, window, limit);
            if StillBound(e, w, trace, m, scanned)
            then r.Ok? && r.value.next == page.next
                 && Describes(EntriesDuring(e, b, w, trace, m), r.value.items, page.items)
            else r == Err(NotFound)
  {
    hide Simulates, Lawful, LawfulRun, IsVersionTag, At, EntryBetween, EntryAt, Scan, Scanned, Hits, Enumerates;
    var read := EntriesDuring(e, b, w, trace, m);
    var q := ListAfter(At(e, w, trace, m.listed).data.tags.Keys, last);
    forall t | IsVersionTag(t)
      ensures read(t).Ok? <==> t in At(e, w, trace, m.manifest(t)).data.tags
      ensures read(t).Err? ==> read(t).error == NotFound
    {
      EntryLinearizes(e, b, w, trace, m.manifest(t), m.config(t), t);
    }
    ScanExact(read, prefix, Window(q, window), limit);
  }

  /** Every version tag in `tags` is bound at the moment its manifest is read. */
  ghost predicate StillBound(e: Env, w: World, trace: Trace, m: Moments, tags: seq<Tag>)
    requires Within(m, trace)
  {
    forall n :: 0 <= n < |tags| && IsVersionTag(tags[n]) ==> tags[n] in At(e, w, trace, m.manifest(tags[n])).data.tags
  }

  /** No version listed in `tags` is removed between the tag list and the read of its manifest. */
  ghost predicate Undisturbed(e: Env, w: World, trace: Trace, m: Moments, tags: seq<Tag>)
    requires Within(m, trace)
  {
    var versions := At(e, w, trace, m.listed).store.versions;
    forall k, n ::
      k in versions && TagOf(e, k) in tags && m.listed <= n < m.manifest(TagOf(e, k)) && trace[n].Remove? ==>
        trace[n].stored != versions[k]
  }

  /** A listed tag whose version was not removed reads as it did when the tags were listed. */
  lemma UndisturbedEntry(e: Env, b: Binding, w: World, trace: Trace, m: Moments, tags: seq<Tag>, t: Tag)
    requires Lawful(e) && Simulates(e, b, w) && LawfulRun(e, b, w, trace) && Within(m, trace)
    requires Undisturbed(e, w, trace, m, tags) && t in tags && IsVersionTag(t)
    requires t in At(e, w, trace, m.listed).data.tags
    ensures EntriesDuring(e, b, w, trace, m)(t) == EntryAt(e, b, At(e, w, trace, m.listed).data, t)
    ensures t in At(e, w, trace, m.manifest(t)).data.tags
  {
    hide Simulates, Lawful, LawfulRun, IsVersionTag, VersionTag, EntryBetween, EntryAt, Replay;
    var i, j := m.listed, m.manifest(t);
    var wi, wj := At(e, w, trace, i), At(e, w, trace, j);
    SimulatesAt(e, b, w, trace, i);
    SimulatesAt(e, b, w, trace, j);
    var k := EntryOf(e, b, wi, t);
    LawfulPart(e, b, w, trace, i, j);
    assert forall n :: 0 <= n < j - i ==> trace[i..j][n] == trace[i + n];
    UnremovedVersionSurvives(e, b, wi, trace[i..j], k);
    StoredTagBound(e, b, wj, k);
    var o := EntryOf(e, b, wj, t);
    VersionsKnown(e, b, wj);
    SameTagSameVersion(e, b, wj, o, k);
    EntryLinearizes(e, b, w, trace, j, m.config(t), t);
  }

  lemma VersionsKnown(e: Env, b: Binding, w: World)
    requires Simulates(e, b, w)
    ensures VersionsAgree(e, b, w)
  {
  }

  /**
    A lock-free listing whose listed versions are not removed while it reads them returns exactly the page
    of the repository at the moment its tags were listed, whatever else writers did.
   */
  lemma ListingLinearizes(e: Env, b: Binding, w: World, trace: Trace, m: Moments, prefix: string, last: Option<Tag>,
                          window: nat, limit: nat)
    requires Lawful(e) && Simulates(e, b, w) && LawfulRun(e, b, w, trace) && Within(m, trace) && limit > 0
    requires var tags := At(e, w, trace, m.listed).data.tags.Keys;
             Undisturbed(e, w, trace, m, Window(ListAfter(tags, last), window))
    ensures var d := At(e, w, trace, m.listed).data;
            var page := PageOf(ViewOf(e, b, d, prefix).hit, ListAfter(d.tags.Keys, last), window, limit);
            var r := ListDuring(e, b, w, trace, m, prefix, last, window, limit);
            r.Ok? && r.value.next == page.next && Describes(EntriesAt(e, b, d), r.value.items, page.items)
  {
    hide Simulates, Lawful, LawfulRun, IsVersionTag, At, EntryBetween, EntryAt, Scanned, Hits, Enumerates, Describes,
      ListDuring, Undisturbed;
    var d := At(e, w, trace, m.listed).data;
    var q := ListAfter(d.tags.Keys, last);
    var tags := Window(q, window);
    var read, listed := EntriesDuring(e, b, w, trace, m), EntriesAt(e, b, d);
    ListedArePresent(d.tags.Keys, last, window);
    forall t | t in tags && IsVersionTag(t)
      ensures read(t) == listed(t) && t in At(e, w, trace, m.manifest(t)).data.tags
    {
      UndisturbedEntry(e, b, w, trace, m, tags, t);
    }
    var during, now := ViewDuring(e, b, w, trace, m, prefix), ViewOf(e, b, d, prefix);
    HitsAgree(during.hit, now.hit, tags, limit);
    var n := Scanned(now.hit, tags, limit);
    HitsAgree(during.hit, now.hit, tags[..n], limit);
    ListingExact(e, b, w, trace, m, prefix, last, window, limit);
    var r := ListDuring(e, b, w, trace, m, prefix, last, window, limit);
    HitsAreTags(now.hit, tags[..n]);
    DescribesSame(read, listed, r.value.items, Hits(now.hit, tags[..n]));
  }

  lemma HitsAreTags(hit: Tag -> bool, tags: seq<Tag>)
    ensures forall t :: t in Hits(hit, tags) ==> t in tags && hit(t)
  {
    forall t ensures t in Hits(hit, tags) ==> t in tags && hit(t) { HitsIn(hit, tags, t); }
  }

  lemma DescribesSame(read: Reader, other: Reader, items: seq<Metadata>, tags: seq<Tag>)
    requires Describes(read, items, tags) && forall t :: t in tags ==> read(t) == other(t)
    ensures Describes(other, items, tags)
  {
  }

  lemma {:induction false} HitsAgree(hit: Tag -> bool, other: Tag -> bool, tags: seq<Tag>, room: nat)
    requires forall t :: t in tags ==> hit(t) == other(t)
    ensures Hits(hit, tags) == Hits(other, tags) && Scanned(hit, tags, room) == Scanned(other, tags, room)
  {
    if tags != [] {
      assert tags[0] in tags;
      HitsAgree(hit, other, tags[1..], room);
      if room > 0 { HitsAgree(hit, other, tags[1..], room - 1); }
    }
  }

  // ----- following cursors during a run -----

  /** The view each page of a crawl had. */
  ghost function ViewsDuring(e: Env, b: Binding, w: World, trace: Trace, pages: seq<Moments>,
                             prefix: string): seq<TagView>
    requires forall n :: 0 <= n < |pages| ==> Within(pages[n], trace)
  {
    seq(|pages|, n requires 0 <= n < |pages| => ViewDuring(e, b, w, trace, pages[n], prefix))
  }

  /** The version is stored when the page's tags are listed and when its own manifest is read. */
  ghost predicate StoredDuring(e: Env, w: World, trace: Trace, m: Moments, k: Key)
    requires Within(m, trace)
  {
    k in At(e, w, trace, m.listed).store.versions && k in At(e, w, trace, m.manifest(TagOf(e, k))).store.versions
  }

  /**
    Following cursors while writers go on, within pages and between them: a version stored at every page of
    a completed crawl, whose id has the prefix, is returned; nothing is returned twice.
   */
  lemma CrawlFindsStoredVersions(e: Env, b: Binding, w: World, trace: Trace, pages: seq<Moments>, prefix: string,
                                 window: nat, limit: nat, k: Key)
    requires Lawful(e) && Simulates(e, b, w) && LawfulRun(e, b, w, trace) && window > 0 && limit > 0
    requires forall n :: 0 <= n < |pages| ==> Within(pages[n], trace) && StoredDuring(e, w, trace, pages[n], k)
    requires prefix <= k.id
    requires Follow(ViewsDuring(e, b, w, trace, pages, prefix), None, window, limit).complete
    ensures TagOf(e, k) in Follow(ViewsDuring(e, b, w, trace, pages, prefix), None, window, limit).items
    ensures Ascending(Below, Follow(ViewsDuring(e, b, w, trace, pages, prefix), None, window, limit).items)
  {
    hide Simulates, Lawful, LawfulRun, VersionTag, At, Follow, EntryBetween, EntryAt, IsVersionTag;
    var views, t := ViewsDuring(e, b, w, trace, pages, prefix), TagOf(e, k);
    forall n | 0 <= n < |views| ensures t in views[n].tags && views[n].hit(t) {
      var m := pages[n];
      assert StoredDuring(e, w, trace, m, k);
      SimulatesAt(e, b, w, trace, m.listed);
      SimulatesAt(e, b, w, trace, m.manifest(t));
      HitIff(e, b, At(e, w, trace, m.listed), prefix, k);
      HitIff(e, b, At(e, w, trace, m.manifest(t)), prefix, k);
      EntryLinearizes(e, b, w, trace, m.manifest(t), m.config(t), t);
    }
    FollowFindsAll(views, None, window, limit, t);
    FollowAscends(views, None, window, limit);
  }

  /** Every returned tag was, when its manifest was read, the tag of a stored version whose id has the prefix. */
  lemma CrawlReturnsOnlyVersions(e: Env, b: Binding, w: World, trace: Trace, pages: seq<Moments>, prefix: string,
                                 window: nat, limit: nat, t: Tag) returns (n: nat, k: Key)
    requires Lawful(e) && Simulates(e, b, w) && LawfulRun(e, b, w, trace) && window > 0 && limit > 0
    requires forall n :: 0 <= n < |pages| ==> Within(pages[n], trace)
    requires t in Follow(ViewsDuring(e, b, w, trace, pages, prefix), None, window, limit).items
    ensures n < |pages| && TagOf(e, k) == t && prefix <= k.id
    ensures k in At(e, w, trace, pages[n].manifest(t)).store.versions
  {
    hide Simulates, Lawful, LawfulRun, VersionTag, At, Follow, EntryBetween, EntryAt, IsVersionTag;
    var views := ViewsDuring(e, b, w, trace, pages, prefix);
    FollowAscends(views, None, window, limit);
    n :| 0 <= n < |views| && t in views[n].tags && views[n].hit(t);
    var m := pages[n];
    SimulatesAt(e, b, w, trace, m.manifest(t));
    EntryLinearizes(e, b, w, trace, m.manifest(t), m.config(t), t);
    k := EntryOf(e, b, At(e, w, trace, m.manifest(t)), t);
  }
}
