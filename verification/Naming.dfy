/** The three tag families (_naming.py): anchors, latest aliases and exact versions. */
module Naming {
  import opened Models

  type Tag = string

  const ANCHOR_PREFIX := "m-a1-"
  const LATEST_PREFIX := "m-l1-"
  const VERSION_PREFIX := "m-v1-"

  /** The first `n` characters, fewer when the text is shorter. */
  function Take(s: string, n: nat): string {
    if |s| <= n then s else s[..n]
  }

  function AnchorTag(e: Env, id: string): Tag { ANCHOR_PREFIX + IdHash(e, id) }

  function LatestTag(e: Env, id: string): Tag { LATEST_PREFIX + IdHash(e, id) }

  function ShortHash(e: Env, id: string): string { Take(IdHash(e, id), 32) }

  function VersionTag(e: Env, id: string, digest: Digest): Tag {
    VERSION_PREFIX + ShortHash(e, id) + "-" + digest
  }

  predicate IsVersionTag(t: Tag) { VERSION_PREFIX <= t }

  /** The text of the three kinds of tags. */
  lemma TagText(e: Env, id: string, digest: Digest)
    requires Lawful(e)
    ensures AnchorTag(e, id) == "m-a1-" + IdHash(e, id) && LatestTag(e, id) == "m-l1-" + IdHash(e, id)
    ensures VersionTag(e, id, digest) == "m-v1-" + IdHash(e, id)[..32] + "-" + digest
    ensures forall t :: IsVersionTag(t) <==> |t| >= 5 && t[..5] == "m-v1-"
  {
    assert |IdHash(e, id)| >= 32;
    assert Take(IdHash(e, id), 32) == IdHash(e, id)[..32];
  }

  lemma TagFamiliesDisjoint(e: Env, i: string, j: string, d: Digest)
    ensures AnchorTag(e, i) != LatestTag(e, j)
    ensures AnchorTag(e, i) != VersionTag(e, j, d) && LatestTag(e, i) != VersionTag(e, j, d)
    ensures IsVersionTag(VersionTag(e, j, d)) && !IsVersionTag(AnchorTag(e, i)) && !IsVersionTag(LatestTag(e, i))
  {
    assert AnchorTag(e, i)[2] == 'a' && LatestTag(e, j)[2] == 'l' && LatestTag(e, i)[2] == 'l';
    assert VersionTag(e, j, d) == VERSION_PREFIX + (ShortHash(e, j) + "-" + d);
    assert VersionTag(e, j, d)[2] == 'v';
    assert VERSION_PREFIX[2] == 'v';
  }

  lemma AnchorTagInjective(e: Env, i: string, j: string)
    requires Lawful(e) && AnchorTag(e, i) == AnchorTag(e, j)
    ensures i == j
  {
    assert IdHash(e, i) == AnchorTag(e, i)[5..] == IdHash(e, j);
    IdHashInjective(e, i, j);
  }

  lemma LatestTagInjective(e: Env, i: string, j: string)
    requires Lawful(e) && LatestTag(e, i) == LatestTag(e, j)
    ensures i == j
  {
    assert IdHash(e, i) == LatestTag(e, i)[5..] == IdHash(e, j);
    IdHashInjective(e, i, j);
  }

  /** Two version tags coincide exactly when the digests agree and the truncated id hashes collide. */
  lemma VersionTagCollision(e: Env, i: string, c: Digest, j: string, d: Digest)
    requires Lawful(e)
    ensures VersionTag(e, i, c) == VersionTag(e, j, d) <==> c == d && ShortHash(e, i) == ShortHash(e, j)
  {
    var x, y := VersionTag(e, i, c), VersionTag(e, j, d);
    assert |ShortHash(e, i)| == 32 && |ShortHash(e, j)| == 32;
    assert x[5..37] == ShortHash(e, i) && x[38..] == c;
    assert y[5..37] == ShortHash(e, j) && y[38..] == d;
  }
}
