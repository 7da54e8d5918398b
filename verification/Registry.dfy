/** The in-memory OCI Distribution registry (tests/support/registry.py) that the adapter runs against. */
module Registry {
  import opened Prelude
  import opened Models
  import opened Naming
  import opened Store
  import opened Ordering
  import opened Paging

  class Registry {
    const e: Env
    var blobs: map<Digest, Bytes>
    var manifests: map<Digest, Bytes>
    var tags: map<Tag, Digest>
    var uploads: map<nat, Bytes>
    var counter: nat

    function Snapshot(): Data
      reads this
    {
      Data(blobs, manifests, tags)
    }

    /** Upload identifiers are handed out in order. */
    ghost predicate Valid()
      reads this
    {
      forall u :: u in uploads ==> u <= counter
    }

    constructor (e: Env)
      ensures Valid() && Snapshot() == EMPTY_DATA && uploads == map[] && this.e == e
    {
      this.e := e;
      blobs, manifests, tags, uploads, counter := map[], map[], map[], map[], 0;
    }

    method StartUpload() returns (u: nat)
      requires Valid()
      modifies this`uploads, this`counter
      ensures Valid() && u == counter == old(counter) + 1
      ensures uploads == old(uploads)[u := []] && u !in old(uploads)
    {
      counter := counter + 1;
      u := counter;
      uploads := uploads[u := []];
    }

    /** PATCH with `Content-Range: first-last`. */
    method PatchUpload(u: nat, first: int, last: int, content: Bytes) returns (status: int)
      requires Valid()
      modifies this`uploads
      ensures Valid()
      ensures status == (if u !in old(uploads) then 404
                         else if first != |old(uploads)[u]| || last != first + |content| - 1 then 416 else 202)
      ensures uploads == if status == 202 then old(uploads)[u := old(uploads)[u] + content] else old(uploads)
    {
      if u !in uploads { return 404; }
      var start := |uploads[u]|;
      if first != start || last != start + |content| - 1 { return 416; }
      uploads := uploads[u := uploads[u] + content];
      status := 202;
    }

    /** PUT with a `digest` parameter and an optional final body. */
    method FinishUpload(u: nat, content: Bytes, declared: Digest) returns (status: int)
      requires Valid()
      modifies this`uploads, this`blobs
      ensures Valid()
      ensures status == (if u !in old(uploads) then 404
                         else if declared != e.hash(old(uploads)[u] + content) then 400 else 201)
      ensures status == 201 ==>
                && Snapshot() == WithBlob(e, old(Snapshot()), old(uploads)[u] + content)
                && blobs == old(blobs)[declared := old(uploads)[u] + content] && uploads == old(uploads) - {u}
      ensures status == 400 ==> Snapshot() == old(Snapshot()) && uploads == old(uploads)[u := old(uploads)[u] + content]
      ensures status == 404 ==> Snapshot() == old(Snapshot()) && uploads == old(uploads)
    {
      if u !in uploads { return 404; }
      var value := uploads[u] + content;
      uploads := uploads[u := value];
      var actual := e.hash(value);
      if declared != actual { return 400; }
      blobs := blobs[actual := value];
      uploads := uploads - {u};
      status := 201;
    }

    method AbortUpload(u: nat) returns (status: int)
      requires Valid()
      modifies this`uploads
      ensures Valid()
      ensures uploads == old(uploads) - {u} && status == if u in old(uploads) then 204 else 404
    {
      status := if u in uploads then 204 else 404;
      uploads := uploads - {u};
    }

    method PutManifest(tag: Tag, body: Bytes)
      modifies this`manifests, this`tags
      ensures Snapshot() == WithManifest(e, old(Snapshot()), tag, body)
      ensures manifests == old(manifests)[e.hash(body) := body] && tags == old(tags)[tag := e.hash(body)]
    {
      var digest := e.hash(body);
      manifests := manifests[digest := body];
      tags := tags[tag := digest];
    }

    /** DELETE by digest drops the manifest and every tag bound to it. */
    method DeleteManifest(digest: Digest) returns (status: int)
      modifies this`manifests, this`tags
      ensures status == if digest in old(manifests) then 202 else 404
      ensures Snapshot() == if status == 202 then WithoutManifest(old(Snapshot()), digest) else old(Snapshot())
      ensures digest !in manifests && manifests == old(manifests) - {digest}
      ensures status == 202 ==> forall t :: t in tags <==> t in old(tags) && old(tags)[t] != digest
    {
      if digest !in manifests { return 404; }
      manifests := manifests - {digest};
      tags := map t | t in tags && tags[t] != digest :: tags[t];
      status := 202;
    }

    /** GET /tags/list: the first `n` tags after `last`, in order, and whether a next link is given. */
    method ListTags(n: nat, last: Option<Tag>) returns (page: seq<Tag>, link: bool)
      ensures page == Window(ListAfter(tags.Keys, last), n)
      ensures link <==> |ListAfter(tags.Keys, last)| > n && page != []
    {
      BelowIsStrictOrder();
      var values := Sorted(Below, set t | t in tags && Past(last, t));
      assert (set t | t in tags && Past(last, t)) == After(tags.Keys, last);
      EnumerationUnique(Below, values, ListAfter(tags.Keys, last), After(tags.Keys, last));
      page := Window(values, n);
      link := |values| > n && page != [];
    }
  }
}
