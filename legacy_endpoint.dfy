/** Construction of the legacy-archive REST endpoint for a dataset that was
    migrated from one of the old sites: the origin site's path slug, the REST
    route with the current post ID swapped for the original one, and the URL. */
module LegacyEndpoint {
  import opened Wrappers
  import opened Decimal
  import opened PhpValues

  const ArchiveHost := "https://legacy.pewresearch.org"

  /** Meta keys holding the origin site and origin post of a migrated dataset. */
  const OriginalBlogIdKey := "dt_original_blog_id"
  const OriginalPostIdKey := "dt_original_post_id"

  /** Origin sites that have a path on the legacy archive. */
  const KnownSites: set<int> := {2, 3, 4, 5, 7, 8, 9, 10, 16, 18, 19}

  /** `legacy__get_original_site_slug`: the fixed site table; any other site,
      and a missing (non-numeric) site ID, map to the empty path. */
  function SiteSlug(siteId: Option<int>): (slug: string)
    ensures slug == "" <==> siteId.None? || siteId.value !in KnownSites
    ensures slug != "" ==> |slug| > 1 && slug[0] == '/'
  {
    match siteId
    case None => ""
    case Some(id) =>
      if id == 2 then "/global"
      else if id == 3 then "/social-trends"
      else if id == 4 then "/politics"
      else if id == 5 then "/hispanic"
      else if id == 7 then "/religion"
      else if id == 8 then "/journalism"
      else if id == 9 then "/internet"
      else if id == 10 then "/methods"
      else if id == 16 then "/science"
      else if id == 18 then "/race-ethnicity"
      else if id == 19 then "/decoded"
      else ""
  }

  /** No two known sites share a path. */
  lemma SiteSlugInjective(a: int, b: int)
    requires a in KnownSites && b in KnownSites && a != b
    ensures SiteSlug(Some(a)) != SiteSlug(Some(b))
  {
  }

  /** `legacy__get_original_rest_route`: `str_replace($post_id, $original_post_id, $rest_route)`.
      A null original ID is replaced by the empty string, as PHP converts it. */
  function OriginalRestRoute(postId: int, originalPostId: Option<int>, route: string): string {
    StrReplace(IntToString(postId), OriginalIdText(originalPostId), route)
  }

  /** The text that takes the post ID's place: the original ID, or nothing. */
  function OriginalIdText(originalPostId: Option<int>): string {
    match originalPostId case Some(p) => IntToString(p) case None => ""
  }

  /** The archive URL `attempt_download_from_archive` requests. */
  function ArchiveEndpoint(siteId: Option<int>, postId: int, originalPostId: Option<int>, route: string): string {
    ArchiveHost + SiteSlug(siteId) + "/wp-json" + OriginalRestRoute(postId, originalPostId, route)
  }

  /** A route in which the current post ID does not occur is kept as it is. */
  lemma RouteWithoutIdUnchanged(postId: int, originalPostId: Option<int>, route: string)
    requires !Occurs(IntToString(postId), route)
    ensures OriginalRestRoute(postId, originalPostId, route) == route
  {
    StrReplaceAbsent(IntToString(postId), OriginalIdText(originalPostId), route);
  }

  /** The usual route `<base>/<post id>`, where the ID does not also occur in the
      base, points at the original post, or at `<base>/` when the original ID is
      missing. */
  lemma RouteEndingInId(postId: int, originalPostId: Option<int>, base: string)
    requires forall i: nat :: i < |base| ==> !OccursAt(base + IntToString(postId), IntToString(postId), i)
    ensures OriginalRestRoute(postId, originalPostId, base + IntToString(postId))
         == base + OriginalIdText(originalPostId)
  {
    StrReplaceTrailing(IntToString(postId), OriginalIdText(originalPostId), base);
  }

  /** The substitution is not anchored to the end of the route: the first
      occurrence of the post ID, wherever it is, becomes the original ID, and
      the rest of the route is rewritten the same way. */
  lemma RouteIdReplaced(postId: int, originalPostId: Option<int>, prefix: string, rest: string)
    requires forall i: nat :: i < |prefix| ==> !OccursAt(prefix + IntToString(postId) + rest, IntToString(postId), i)
    ensures OriginalRestRoute(postId, originalPostId, prefix + IntToString(postId) + rest)
         == prefix + OriginalIdText(originalPostId) + OriginalRestRoute(postId, originalPostId, rest)
  {
    assert |IntToString(postId)| > 0;
    StrReplaceAtOccurrence(IntToString(postId), OriginalIdText(originalPostId), prefix, rest);
  }

  /** Mapping a post to itself leaves every route unchanged. */
  lemma SamePostKeepsRoute(postId: int, route: string)
    ensures OriginalRestRoute(postId, Some(postId), route) == route
  {
    StrReplaceSelf(IntToString(postId), route);
  }

  /** No occurrence of a pattern can start at a character other than its first. */
  lemma NoOccurrenceBefore(s: string, pattern: string, bound: nat)
    requires pattern != "" && bound <= |s|
    requires forall i :: 0 <= i < bound ==> s[i] != pattern[0]
    ensures forall i: nat :: i < bound ==> !OccursAt(s, pattern, i)
  {
    forall i: nat | i < bound ensures !OccursAt(s, pattern, i) {
      if i + |pattern| <= |s| {
        assert s[i..i + |pattern|][0] == s[i];
      }
    }
  }

  lemma SmallIntTexts()
    ensures IntToString(2) == "2" && IntToString(42) == "42" && IntToString(99) == "99"
  {
    assert NatToString(4) == "4" && NatToString(9) == "9";
  }

  /** The endpoint of a dataset whose route is `<base><post id>`: the archive
      host, the origin site's slug (empty for an unlisted or missing site), the
      REST prefix and the route pointing at the original post. */
  lemma KnownSiteEndpoint(siteId: Option<int>, postId: int, originalPostId: Option<int>, base: string)
    requires forall i: nat :: i < |base| ==> !OccursAt(base + IntToString(postId), IntToString(postId), i)
    ensures var endpoint := ArchiveEndpoint(siteId, postId, originalPostId, base + IntToString(postId));
            && (siteId.Some? && siteId.value in KnownSites ==>
                  endpoint == ArchiveHost + SiteSlug(siteId) + "/wp-json" + base + OriginalIdText(originalPostId)
                  && SiteSlug(siteId) != "")
            && (siteId.None? || siteId.value !in KnownSites ==>
                  endpoint == ArchiveHost + "/wp-json" + base + OriginalIdText(originalPostId))
  {
    RouteEndingInId(postId, originalPostId, base);
    var head := ArchiveHost + SiteSlug(siteId) + "/wp-json";
    var route := base + OriginalIdText(originalPostId);
    assert ArchiveEndpoint(siteId, postId, originalPostId, base + IntToString(postId)) == head + route;
    assert head + route == head + base + OriginalIdText(originalPostId);
    if siteId.None? || siteId.value !in KnownSites {
      assert head == ArchiveHost + "/wp-json";
    }
  }

  /** Worked example: dataset 42 migrated from site 4 as post 99. */
  lemma PoliticsEndpointExample()
    ensures ArchiveEndpoint(Some(4), 42, Some(99), "/wp/v2/dataset/" + "42")
         == ArchiveHost + "/politics" + "/wp-json" + "/wp/v2/dataset/" + "99"
  {
    SmallIntTexts();
    var base := "/wp/v2/dataset/";
    forall i | 0 <= i < |base| ensures (base + "42")[i] != '4' {
      assert (base + "42")[i] == base[i];
    }
    NoOccurrenceBefore(base + "42", "42", |base|);
    KnownSiteEndpoint(Some(4), 42, Some(99), base);
    assert SiteSlug(Some(4)) == "/politics";
  }

  /** Worked example: post 2's ID also matches the `2` of `/wp/v2`, and both
      occurrences are replaced. */
  lemma IdInVersionSegmentIsReplaced()
    ensures OriginalRestRoute(2, Some(99), "/wp/v2/dataset/2") == "/wp/v" + "99" + "/dataset/" + "99"
  {
    SmallIntTexts();
    var head, tail := "/wp/v", "/dataset/";
    assert head + "2" + (tail + "2") == "/wp/v2/dataset/2";
    assert forall i :: 0 <= i < |head| ==> (head + "2" + (tail + "2"))[i] != '2';
    NoOccurrenceBefore(head + "2" + (tail + "2"), "2", |head|);
    RouteIdReplaced(2, Some(99), head, tail + "2");
    assert forall i :: 0 <= i < |tail| ==> (tail + "2")[i] != '2';
    NoOccurrenceBefore(tail + "2", "2", |tail|);
    RouteEndingInId(2, Some(99), tail);
    assert head + "99" + (tail + "99") == "/wp/v" + "99" + "/dataset/" + "99";
  }
}
