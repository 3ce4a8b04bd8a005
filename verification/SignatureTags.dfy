/**
 The tags under which a manifest's signatures may sit in its repository.
 */
module SignatureTags {
  import opened Wrappers
  import opened Text
  import opened Registry

  // The referrers fallback tag: "sha256:<hex>" becomes "sha256-<hex>".
  function FallbackTag(d: Digest): Tag {
    if HasPrefix(d, "sha256:") then "sha256-" + d[7..] else d
  }

  // The attached-signature tag.
  function SignatureTag(d: Digest): Tag {
    FallbackTag(d) + ".sig"
  }

  function SignatureTagsOf(d: Digest): set<Tag> {
    {SignatureTag(d), FallbackTag(d)}
  }

  // What the tags of a sha256 digest look like.
  lemma TagsOfSha256(hex: string)
    ensures SignatureTagsOf("sha256:" + hex) == {"sha256-" + hex + ".sig", "sha256-" + hex}
  {
    assert ("sha256:" + hex)[7..] == hex;
  }

  // A digest in the registries' form; its hexadecimal part has no dot.
  predicate Sha256(d: Digest) {
    HasPrefix(d, "sha256:") && '.' !in d
  }

  // No two manifests share a signature tag.
  lemma SignatureTagsApart(d: Digest, e: Digest)
    requires Sha256(d) && Sha256(e) && d != e
    ensures SignatureTagsOf(d) !! SignatureTagsOf(e)
  {
    var x, y := FallbackTag(d), FallbackTag(e);
    assert d == "sha256:" + x[7..] && e == "sha256:" + y[7..];
    assert x == "sha256-" + x[7..] && y == "sha256-" + y[7..];
    assert x != y;
    assert forall c :: c in x ==> c in d || c in "sha256-";
    assert forall c :: c in y ==> c in e || c in "sha256-";
    assert '.' !in x && '.' !in y;
    assert (x + ".sig")[|x|] == '.' && (y + ".sig")[|y|] == '.';
    assert (x + ".sig")[..|x|] == x && (y + ".sig")[..|y|] == y;
  }
}
