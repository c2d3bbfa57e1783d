/**
 * The slug utility (`handleOriginalURLChange`): the last path segment of a
 * pasted URL and the two newsletter URLs built from it.
 */
module UrlProcessor {
  import opened Wrappers

  /**
   * `url.match(/\/([^\/]+)$/)` tried from start position `from` on: the
   * first `/` followed by one or more characters other than `/` up to the
   * end of the string; the capture group is what follows the `/`.
   */
  function MatchFrom(url: string, from: nat): (r: Option<string>)
    requires from <= |url|
    ensures r.Some? ==>
              && r.value != [] && '/' !in r.value
              && from < |url| - |r.value| && url[|url| - |r.value| - 1] == '/'
              && url[|url| - |r.value|..] == r.value
    ensures r.None? <==> ('/' !in url[from..] || url[|url| - 1] == '/')
    decreases |url| - from
  {
    if from == |url| then None
    else if url[from] == '/' && from + 1 < |url| && '/' !in url[from + 1..] then Some(url[from + 1..])
    else
      assert url[from..] == [url[from]] + url[from + 1..];
      assert url[from + 1..] == [] ==> url[|url| - 1] == url[from];
      MatchFrom(url, from + 1)
  }

  /**
   * The slug: present exactly when the URL holds a `/` and does not end with
   * one, and then the non-empty text after the last `/`.
   */
  function ExtractSlug(url: string): (r: Option<string>)
    ensures r.Some? <==> '/' in url && url[|url| - 1] != '/'
    ensures r.Some? ==>
              && r.value != [] && '/' !in r.value
              && |r.value| < |url| && url[|url| - |r.value| - 1] == '/'
              && url[|url| - |r.value|..] == r.value
  {
    assert url[0..] == url;
    MatchFrom(url, 0)
  }

  const PostPrefix: string := "https://billmei.substack.com/p/"
  const CommentsSuffix: string := "/comments"

  /** The three values the page shows: the slug, the post URL and the comments URL. */
  datatype Links = Links(slug: string, postUrl: string, commentsUrl: string)

  function OnUrlChange(url: string): (r: Links)
    ensures r.slug == [] <==> ('/' !in url || url[|url| - 1] == '/')
    ensures r.slug != [] ==>
              && '/' !in r.slug && |r.slug| < |url|
              && url[|url| - |r.slug| - 1] == '/' && url[|url| - |r.slug|..] == r.slug
    ensures r.postUrl == (if r.slug == [] then [] else PostPrefix + r.slug)
    ensures r.commentsUrl == (if r.slug == [] then [] else r.postUrl + CommentsSuffix)
  {
    match ExtractSlug(url)
    case Some(slug) => Links(slug, PostPrefix + slug, PostPrefix + slug + CommentsSuffix)
    case None => Links("", "", "")
  }

  /** A URL that ends in a non-empty segment after a `/` has exactly that segment as its slug. */
  lemma LastSegmentIsSlug(prefix: string, segment: string)
    requires segment != [] && '/' !in segment
    ensures ExtractSlug(prefix + "/" + segment) == Some(segment)
    ensures OnUrlChange(prefix + "/" + segment)
              == Links(segment, PostPrefix + segment, PostPrefix + segment + CommentsSuffix)
  {
    var url := prefix + "/" + segment;
    assert url[|prefix|] == '/';
    assert url[|url| - 1] == segment[|segment| - 1];
    assert url[|url| - |segment|..] == segment;
  }

  /** A URL without `/`, or ending with `/`, gives three empty values. */
  lemma NoSegmentGivesNothing(url: string)
    requires '/' !in url || url[|url| - 1] == '/'
    ensures OnUrlChange(url) == Links("", "", "")
  {
  }

  /** The derived URLs depend on the last segment only, not on the rest of the URL. */
  lemma LinksDependOnSegmentOnly(prefix1: string, prefix2: string, segment: string)
    requires segment != [] && '/' !in segment
    ensures OnUrlChange(prefix1 + "/" + segment) == OnUrlChange(prefix2 + "/" + segment)
  {
    LastSegmentIsSlug(prefix1, segment);
    LastSegmentIsSlug(prefix2, segment);
  }

  /**
   * Pasting the post URL back in yields the same slug and the same URLs; a
   * URL without a slug gives an empty post URL, which again gives nothing.
   */
  lemma PostUrlRoundTrip(url: string)
    ensures OnUrlChange(OnUrlChange(url).postUrl) == OnUrlChange(url)
  {
    match ExtractSlug(url)
    case Some(slug) =>
      var prefix := "https://billmei.substack.com/p";
      assert PostPrefix + slug == prefix + "/" + slug;
      LastSegmentIsSlug(prefix, slug);
    case None =>
      NoSegmentGivesNothing("");
  }
}
