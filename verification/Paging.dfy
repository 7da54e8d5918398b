/**
  Signed-cursor listing (`_list` and `list_tags`) as pages over a changing set of tags. A page scans at
  most `window` tags after the cursor, returns the hits among them, and stops early at `limit` hits.
 */
module Paging {
  import opened Prelude
  import opened Naming
  import opened Ordering

  /** The tags of a repository, and which of them a listing is asked for. */
  datatype TagView = TagView(tags: set<Tag>, hit: Tag -> bool)

  predicate Past(last: Option<Tag>, t: Tag) { last.None? || Below(last.value, t) }

  function After(tags: set<Tag>, last: Option<Tag>): set<Tag> {
    set t | t in tags && Past(last, t)
  }

  function Hits(hit: Tag -> bool, q: seq<Tag>): seq<Tag> {
    if q == [] then [] else (if hit(q[0]) then [q[0]] else []) + Hits(hit, q[1..])
  }

  /** How many tags of a page are scanned until `room` hits are found. */
  function Scanned(hit: Tag -> bool, q: seq<Tag>, room: nat): (n: nat)
    ensures n <= |q|
  {
    if q == [] then 0
    else if !hit(q[0]) then 1 + Scanned(hit, q[1..], room)
    else if room <= 1 then 1
    else 1 + Scanned(hit, q[1..], room - 1)
  }

  /** The tags returned and the tag the next cursor carries. */
  datatype Page = Page(items: seq<Tag>, next: Option<Tag>)

  function Window(q: seq<Tag>, window: nat): seq<Tag> { if |q| <= window then q else q[..window] }

  /** One page, from the ascending list `q` of the tags after the cursor. */
  function PageOf(hit: Tag -> bool, q: seq<Tag>, window: nat, limit: nat): Page {
    var page := Window(q, window);
    var n := Scanned(hit, page, limit);
    var items := Hits(hit, page[..n]);
    Page(items, if n > 0 && (|items| == limit || |q| >= window) then Some(page[n - 1]) else None)
  }

  lemma {:induction false} HitsIn(hit: Tag -> bool, q: seq<Tag>, t: Tag)
    ensures t in Hits(hit, q) <==> t in q && hit(t)
  {
    if q != [] { HitsIn(hit, q[1..], t); }
  }

  lemma {:induction false} HitsSplit(hit: Tag -> bool, p: seq<Tag>, q: seq<Tag>)
    ensures Hits(hit, p + q) == Hits(hit, p) + Hits(hit, q)
  {
    if p == [] {
      assert p + q == q;
    } else {
      HitsSplit(hit, p[1..], q);
      assert (p + q)[1..] == p[1..] + q;
      var head, mid, tail := if hit(p[0]) then [p[0]] else [], Hits(hit, p[1..]), Hits(hit, q);
      calc {
        Hits(hit, p + q);
        head + Hits(hit, p[1..] + q);
        head + (mid + tail);
        (head + mid) + tail;
      }
    }
  }

  lemma {:induction false} HitsAscending(hit: Tag -> bool, q: seq<Tag>)
    requires Ascending(Below, q)
    ensures Ascending(Below, Hits(hit, q))
  {
    if q != [] {
      HitsAscending(hit, q[1..]);
      var rest := Hits(hit, q[1..]);
      forall j | 0 <= j < |rest| ensures Below(q[0], rest[j]) {
        HitsIn(hit, q[1..], rest[j]);
        var i :| 0 <= i < |q[1..]| && q[1..][i] == rest[j];
        assert q[i + 1] == rest[j];
      }
    }
  }

  /** A scan stops at the limit or reads the whole page. */
  lemma {:induction false} ScanBound(hit: Tag -> bool, q: seq<Tag>, room: nat)
    requires room > 0
    ensures var n := Scanned(hit, q, room);
            |Hits(hit, q[..n])| <= room && (n == |q| || |Hits(hit, q[..n])| == room)
    ensures q != [] ==> Scanned(hit, q, room) > 0
  {
    if q != [] {
      var n := Scanned(hit, q, room);
      assert q[..n][1..] == q[1..][..n - 1];
      if !hit(q[0]) {
        ScanBound(hit, q[1..], room);
      } else if room > 1 {
        ScanBound(hit, q[1..], room - 1);
      }
    }
  }

  /** A page never exceeds its limit, and the tags up to its cursor hold exactly its items. */
  lemma PageBound(hit: Tag -> bool, q: seq<Tag>, window: nat, limit: nat)
    requires window > 0 && limit > 0 && Ascending(Below, q)
    ensures var page := PageOf(hit, q, window, limit);
            && |page.items| <= limit && Ascending(Below, page.items)
            && (page.next.None? ==> page.items == Hits(hit, q))
            && (page.next.Some? ==>
                  exists n :: 0 < n <= |q| && page.next.value == q[n - 1] && page.items == Hits(hit, q[..n]))
            && (page.next.None? ==> |q| < window && |page.items| < limit)
            && (page.next.Some? ==> |page.items| == limit || (|q| >= window && page.next.value == q[window - 1]))
  {
    var w := Window(q, window);
    var n := Scanned(hit, w, limit);
    ScanBound(hit, w, limit);
    assert w[..n] == q[..n];
    HitsAscending(hit, q[..n]);
    if PageOf(hit, q, window, limit).next.None? {
      assert q[..n] == q;
    }
  }

  /** The tags after a tag of the list are the rest of the list. */
  lemma RestOf(tags: set<Tag>, last: Option<Tag>, q: seq<Tag>, n: nat)
    requires Enumerates(Below, q, After(tags, last)) && 0 < n <= |q|
    ensures Enumerates(Below, q[n..], After(tags, Some(q[n - 1])))
  {
    BelowIsStrictOrder();
    forall t ensures t in q[n..] <==> t in After(tags, Some(q[n - 1])) {
      assert q[n - 1] in q;
      if t in q[n..] {
        var i :| 0 <= i < |q[n..]| && q[n..][i] == t;
        assert q[n + i] == t && t in q;
      }
      if t in After(tags, Some(q[n - 1])) {
        if last.Some? { BelowTransitive(last.value, q[n - 1], t); }
        assert t in q;
        var i :| 0 <= i < |q| && q[i] == t;
        assert i >= n;
        assert q[n..][i - n] == t;
      }
    }
  }

  // ----- following cursors -----

  /** The ascending list of tags after a cursor. */
  ghost function ListAfter(tags: set<Tag>, last: Option<Tag>): (q: seq<Tag>)
    ensures Enumerates(Below, q, After(tags, last))
  {
    EnumerationExists(After(tags, last));
    var q :| Enumerates(Below, q, After(tags, last));
    q
  }

  lemma {:induction false} EnumerationExists(s: set<Tag>)
    ensures exists q :: Enumerates(Below, q, s)
    decreases |s|
  {
    BelowIsStrictOrder();
    if s == {} {
      assert Enumerates(Below, [], s);
    } else {
      var x := Least(s);
      EnumerationExists(s - {x});
      var q :| Enumerates(Below, q, s - {x});
      assert forall j :: 0 <= j < |q| ==> q[j] in s - {x};
      assert forall i, j :: 0 <= i < j < |[x] + q| ==> Below(([x] + q)[i], ([x] + q)[j]);
      assert Enumerates(Below, [x] + q, s);
    }
  }

  lemma {:induction false} Least(s: set<Tag>) returns (x: Tag)
    requires s != {}
    ensures x in s && forall y :: y in s && y != x ==> Below(x, y)
    decreases |s|
  {
    var z :| z in s;
    var rest := s - {z};
    x := z;
    if rest != {} {
      var m := Least(rest);
      BelowTotal(m, z);
      if Below(m, z) { x := m; }
      forall y | y in s && y != x ensures Below(x, y) {
        if y in rest && y != m && x == z { BelowTransitive(z, m, y); }
      }
    }
  }

  /** Everything a client got by following cursors, page by page, each page from the next view. */
  datatype Crawl = Crawl(items: seq<Tag>, complete: bool)

  ghost function Follow(views: seq<TagView>, last: Option<Tag>, window: nat, limit: nat): Crawl {
    if views == [] then Crawl([], false)
    else
      var page := PageOf(views[0].hit, ListAfter(views[0].tags, last), window, limit);
      if page.next.None? then Crawl(page.items, true)
      else
        var rest := Follow(views[1..], page.next, window, limit);
        Crawl(page.items + rest.items, rest.complete)
  }

  /** A page returns exactly the hits after its cursor up to the next cursor. */
  lemma PageExact(v: TagView, last: Option<Tag>, window: nat, limit: nat, t: Tag)
    requires window > 0 && limit > 0
    ensures var page := PageOf(v.hit, ListAfter(v.tags, last), window, limit);
            && (t in page.items <==>
                  t in After(v.tags, last) && v.hit(t)
                  && (page.next.None? || t == page.next.value || Below(t, page.next.value)))
            && (page.next.Some? ==> page.next.value in After(v.tags, last))
  {
    BelowIsStrictOrder();
    var q := ListAfter(v.tags, last);
    var page := PageOf(v.hit, q, window, limit);
    PageBound(v.hit, q, window, limit);
    HitsIn(v.hit, q, t);
    if page.next.Some? {
      var n :| 0 < n <= |q| && page.next.value == q[n - 1] && page.items == Hits(v.hit, q[..n]);
      HitsIn(v.hit, q[..n], t);
      assert q[n - 1] in q;
      UpTo(q, n, t);
    }
  }

  /** In an ascending list, the first `n` entries are those not above the `n`-th. */
  lemma UpTo(q: seq<Tag>, n: nat, t: Tag)
    requires StrictOrder(Below) && Ascending(Below, q) && 0 < n <= |q|
    ensures t in q[..n] <==> t in q && (t == q[n - 1] || Below(t, q[n - 1]))
  {
    if t in q[..n] {
      var i :| 0 <= i < n && q[..n][i] == t;
      assert q[i] == t;
    }
    if t in q && (t == q[n - 1] || Below(t, q[n - 1])) {
      var i :| 0 <= i < |q| && q[i] == t;
      assert i < n;
      assert q[..n][i] == t;
    }
  }

  lemma JoinAscending(p: seq<Tag>, r: seq<Tag>, mid: Tag)
    requires Ascending(Below, p) && Ascending(Below, r)
    requires forall t :: t in p ==> t == mid || Below(t, mid)
    requires forall t :: t in r ==> Below(mid, t)
    ensures Ascending(Below, p + r)
  {
    BelowIsStrictOrder();
    forall i, j | 0 <= i < j < |p + r| ensures Below((p + r)[i], (p + r)[j]) {
      if i < |p| <= j {
        assert p[i] in p && r[j - |p|] in r;
      }
    }
  }

  /**
    Whatever changes between pages, following cursors returns tags in strictly ascending order, so no
    version twice, and each was a hit when its page was read.
   */
  lemma {:induction false} FollowAscends(views: seq<TagView>, last: Option<Tag>, window: nat, limit: nat)
    requires window > 0 && limit > 0
    ensures var items := Follow(views, last, window, limit).items;
            && Ascending(Below, items)
            && (forall t :: t in items ==> Past(last, t) && Seen(views, t))
  {
    if views != [] {
      var page := PageOf(views[0].hit, ListAfter(views[0].tags, last), window, limit);
      PageBound(views[0].hit, ListAfter(views[0].tags, last), window, limit);
      forall t | t in page.items
        ensures Past(last, t) && Seen(views, t)
      {
        PageExact(views[0], last, window, limit, t);
      }
      if page.next.Some? {
        FollowAscends(views[1..], page.next, window, limit);
        var rest := Follow(views[1..], page.next, window, limit).items;
        forall t ensures t in page.items ==> t == page.next.value || Below(t, page.next.value) {
          PageExact(views[0], last, window, limit, t);
        }
        JoinAscending(page.items, rest, page.next.value);
        forall t | t in rest ensures Past(last, t) && Seen(views, t) {
          PageExact(views[0], last, window, limit, t);
          if last.Some? { BelowTransitive(last.value, page.next.value, t); }
          var n :| 0 <= n < |views[1..]| && t in views[1..][n].tags && views[1..][n].hit(t);
          assert views[n + 1] == views[1..][n];
        }
      }
    }
  }

  /** Some page was read while `t` was there and asked for. */
  ghost predicate Seen(views: seq<TagView>, t: Tag) {
    exists n :: 0 <= n < |views| && t in views[n].tags && views[n].hit(t)
  }

  /** A version that is there for every page is returned by a completed crawl. */
  lemma {:induction false} FollowFindsAll(views: seq<TagView>, last: Option<Tag>, window: nat, limit: nat, t: Tag)
    requires window > 0 && limit > 0 && Past(last, t)
    requires forall n :: 0 <= n < |views| ==> t in views[n].tags && views[n].hit(t)
    requires Follow(views, last, window, limit).complete
    ensures t in Follow(views, last, window, limit).items
  {
    var v := views[0];
    var page := PageOf(v.hit, ListAfter(v.tags, last), window, limit);
    assert t in v.tags && v.hit(t);
    PageExact(v, last, window, limit, t);
    if t !in page.items {
      BelowTotal(t, page.next.value);
      FollowFindsAll(views[1..], page.next, window, limit, t);
    }
  }

  /**
    On a fixed repository, following cursors ends within one page per remaining tag and returns the full
    filtered scan, in tag order.
   */
  lemma {:induction false} FollowIsFullScan(v: TagView, views: seq<TagView>, last: Option<Tag>, window: nat, limit: nat)
    requires window > 0 && limit > 0
    requires forall n :: 0 <= n < |views| ==> views[n] == v
    requires |views| > |ListAfter(v.tags, last)|
    ensures Follow(views, last, window, limit) == Crawl(Hits(v.hit, ListAfter(v.tags, last)), true)
    decreases |views|
  {
    hide PageOf, Hits, Enumerates;
    var q := ListAfter(v.tags, last);
    var page := PageOf(v.hit, q, window, limit);
    PageCut(v, last, window, limit);
    assert views[0] == v;
    if page.next.Some? {
      FollowIsFullScan(v, views[1..], page.next, window, limit);
    }
  }

  /** A page and the list after its next cursor make up the list after its own cursor. */
  lemma PageCut(v: TagView, last: Option<Tag>, window: nat, limit: nat)
    requires window > 0 && limit > 0
    ensures var q := ListAfter(v.tags, last);
            var page := PageOf(v.hit, q, window, limit);
            && (page.next.None? ==> page.items == Hits(v.hit, q))
            && (page.next.Some? ==>
                  && |ListAfter(v.tags, page.next)| < |q|
                  && page.items + Hits(v.hit, ListAfter(v.tags, page.next)) == Hits(v.hit, q))
  {
    hide PageOf, Hits, Enumerates;
    var q := ListAfter(v.tags, last);
    var page := PageOf(v.hit, q, window, limit);
    ListAscends(v.tags, last);
    PageBound(v.hit, q, window, limit);
    if page.next.Some? {
      var n :| 0 < n <= |q| && page.next.value == q[n - 1] && page.items == Hits(v.hit, q[..n]);
      NextList(v.tags, last, n);
      HitsSplit(v.hit, q[..n], q[n..]);
      assert q == q[..n] + q[n..];
    }
  }

  lemma ListAscends(tags: set<Tag>, last: Option<Tag>)
    ensures Ascending(Below, ListAfter(tags, last))
  {
  }

  lemma NextList(tags: set<Tag>, last: Option<Tag>, n: nat)
    requires 0 < n <= |ListAfter(tags, last)|
    ensures var q := ListAfter(tags, last); ListAfter(tags, Some(q[n - 1])) == q[n..]
  {
    hide Enumerates;
    var q := ListAfter(tags, last);
    RestOf(tags, last, q, n);
    BelowIsStrictOrder();
    EnumerationUnique(Below, q[n..], ListAfter(tags, Some(q[n - 1])), After(tags, Some(q[n - 1])));
  }
}
