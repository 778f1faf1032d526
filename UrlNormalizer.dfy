/**
 * Rewriting of two-slash `bluesky://` deep links to the three-slash form, so
 * that the first path component is always parsed as part of the pathname and
 * never as a host.
 */
module UrlNormalizer {
  import opened Strings

  const TwoSlashPrefix: string := "bluesky://"
  const ThreeSlashPrefix: string := "bluesky:///"

  /** The rewrite done at the start of `handleIncomingURL`. */
  function NormalizeUrl(url: string): (r: string)
    ensures StartsWith(url, TwoSlashPrefix) ==> StartsWith(r, ThreeSlashPrefix)
    ensures !StartsWith(url, TwoSlashPrefix) ==> r == url
  {
    if StartsWith(url, TwoSlashPrefix) && !StartsWith(url, ThreeSlashPrefix) then
      ReplaceFirstAtStart(url, TwoSlashPrefix, ThreeSlashPrefix);
      ReplaceFirst(url, TwoSlashPrefix, ThreeSlashPrefix)
    else
      url
  }

  /** A two-slash link gains exactly one `/` right after the scheme; removing it gives the link back. */
  lemma NormalizeInsertsOneSlash(url: string)
    requires StartsWith(url, TwoSlashPrefix) && !StartsWith(url, ThreeSlashPrefix)
    ensures NormalizeUrl(url) == TwoSlashPrefix + "/" + url[|TwoSlashPrefix|..]
    ensures |NormalizeUrl(url)| == |url| + 1
    ensures NormalizeUrl(url)[..|TwoSlashPrefix|] + NormalizeUrl(url)[|TwoSlashPrefix| + 1..] == url
  {
    ReplaceFirstAtStart(url, TwoSlashPrefix, ThreeSlashPrefix);
    var r := NormalizeUrl(url);
    assert r[..|TwoSlashPrefix|] == TwoSlashPrefix == url[..|TwoSlashPrefix|];
    assert r[|TwoSlashPrefix| + 1..] == url[|TwoSlashPrefix|..];
    assert url == url[..|TwoSlashPrefix|] + url[|TwoSlashPrefix|..];
  }

  /** A two-slash link whose remainder does not begin with `/` becomes the three-slash link with that remainder. */
  lemma NormalizeTwoSlashLink(rest: string)
    requires |rest| > 0 && rest[0] != '/'
    ensures NormalizeUrl(TwoSlashPrefix + rest) == ThreeSlashPrefix + rest
  {
    var url := TwoSlashPrefix + rest;
    assert url[..|TwoSlashPrefix|] == TwoSlashPrefix;
    assert url[|TwoSlashPrefix|] == rest[0] != ThreeSlashPrefix[|TwoSlashPrefix|];
    NormalizeInsertsOneSlash(url);
    assert url[|TwoSlashPrefix|..] == rest;
  }

  /** Every link that is not a two-slash `bluesky://` link passes through unchanged. */
  lemma NormalizeKeepsOthers(url: string)
    requires !StartsWith(url, TwoSlashPrefix) || StartsWith(url, ThreeSlashPrefix)
    ensures NormalizeUrl(url) == url
  {
  }

  /** Normalising twice is normalising once. */
  lemma NormalizeIdempotent(url: string)
    ensures NormalizeUrl(NormalizeUrl(url)) == NormalizeUrl(url)
  {
    var r := NormalizeUrl(url);
    if StartsWith(url, TwoSlashPrefix) {
      assert StartsWith(r, ThreeSlashPrefix);
      assert r[..|TwoSlashPrefix|] == r[..|ThreeSlashPrefix|][..|TwoSlashPrefix|];
      NormalizeKeepsOthers(r);
    }
  }
}
