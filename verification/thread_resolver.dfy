/** Comment-thread resolution of the test variant: `findCommentPage` and `getComments`. */
module ThreadResolver {
  import opened Wrappers
  import opened Text
  import opened Upstream
  import opened Paging
  import opened CommentThreads

  /** An album member stands for the content when its id is non-empty and starts with
      the content id (upstream ids are sometimes truncated). */
  predicate MemberMatches(m: ContentRef, contentId: String) {
    m.id != "" && StartsWith(m.id, contentId)
  }

  /** The position of the first matching member. */
  function FirstMatchingMember(members: seq<ContentRef>, contentId: String): (r: Option<nat>)
    ensures r.Some? ==> r.value < |members| && MemberMatches(members[r.value], contentId)
    ensures r.Some? ==> forall j :: 0 <= j < r.value ==> !MemberMatches(members[j], contentId)
    ensures r.None? ==> forall j :: 0 <= j < |members| ==> !MemberMatches(members[j], contentId)
  {
    if members == [] then None
    else if MemberMatches(members[0], contentId) then Some(0)
    else match FirstMatchingMember(members[1..], contentId)
      case None => None
      case Some(k) => Some(k + 1)
  }

  predicate AlbumHolds(a: Album, contentId: String) {
    FirstMatchingMember(a.contentList, contentId).Some?
  }

  /** The position of the first album holding the content. */
  function FirstMatchingAlbum(albums: seq<Album>, contentId: String): (r: Option<nat>)
    ensures r.Some? ==> r.value < |albums| && AlbumHolds(albums[r.value], contentId)
    ensures r.Some? ==> forall j :: 0 <= j < r.value ==> !AlbumHolds(albums[j], contentId)
    ensures r.None? ==> forall j :: 0 <= j < |albums| ==> !AlbumHolds(albums[j], contentId)
  {
    if albums == [] then None
    else if AlbumHolds(albums[0], contentId) then Some(0)
    else match FirstMatchingAlbum(albums[1..], contentId)
      case None => None
      case Some(k) => Some(k + 1)
  }

  predicate IsHalfAlbum(a: Album) {
    a.name != "" && Contains(a.name, HalfMarker)
  }

  /** The outcome of `findCommentPage`: the thread id (None for null), the cache after
      the call, and the upstream requests made, in order. */
  datatype Found = Found(target: Option<String>, cache: Cache, lookups: seq<Lookup>)

  /** What a resolution step may add to the request log: content and badge requests. */
  predicate ExtendsWithLookups(before: seq<Lookup>, after: seq<Lookup>) {
    && |before| <= |after| && after[..|before|] == before
    && forall i :: |before| <= i < |after| ==> after[i].ContentFetch? || after[i].BadgeSearch?
  }

  /** How a resolution step leaves the cache: untouched on failure, one indirect entry for
      the content on success. */
  predicate CachedAsFound(r: Found, contentId: String, cache: Cache) {
    && (r.target.None? ==> r.cache == cache)
    && (r.target.Some? ==> r.cache == cache[contentId := CacheEntry(r.target.value, false)])
  }

  /** Badge search for `term`; a hit is cached as an indirect thread. */
  function BadgeStep(term: String, contentId: String, cache: Cache, before: seq<Lookup>, services: Services): (r: Found)
    ensures r.lookups == before + [BadgeSearch(term)]
    ensures ExtendsWithLookups(before, r.lookups) && CachedAsFound(r, contentId, cache)
    ensures r.target.Some? <==> services.badgeSearch(term).Got? && services.badgeSearch(term).value != []
    ensures r.target.Some? ==> r.target.value == services.badgeSearch(term).value[0].id
  {
    var (hit, log) := FirstBadge(term, services);
    match hit
    case None => Found(None, cache, before + log)
    case Some(id) => Found(Some(id), cache[contentId := CacheEntry(id, false)], before + log)
  }

  /** No album holds the content: search badges by the content's own short name. */
  function FromContentName(contentId: String, cache: Cache, before: seq<Lookup>, services: Services): (r: Found)
    ensures ExtendsWithLookups(before, r.lookups) && CachedAsFound(r, contentId, cache)
    ensures |r.lookups| > |before| && r.lookups[|before|] == ContentFetch(contentId)
  {
    var fetched := before + [ContentFetch(contentId)];
    match services.contentDetail(contentId)
    case Failed => Found(None, cache, fetched)
    case Got(info) =>
      if info.shortName == "" then Found(None, cache, fetched)
      else BadgeStep(StripEpisodePrefix(info.shortName), contentId, cache, fetched, services)
  }

  /** The search term for a marked album: the matching member's short name, or else the
      album's name with its episode-number prefix stripped. */
  function HalfAlbumName(album: Album, contentId: String): String
    requires AlbumHolds(album, contentId)
  {
    var member := album.contentList[FirstMatchingMember(album.contentList, contentId).value];
    if member.shortName != "" then member.shortName else StripEpisodePrefix(album.name)
  }

  /** The album holding the content: a marked album is searched as a badge, any other
      album is the thread itself. */
  function FromAlbum(album: Album, contentId: String, cache: Cache, before: seq<Lookup>, services: Services): (r: Found)
    requires AlbumHolds(album, contentId)
    ensures ExtendsWithLookups(before, r.lookups) && CachedAsFound(r, contentId, cache)
    ensures !IsHalfAlbum(album) ==> r.target == Some(album.id) && r.lookups == before
  {
    if IsHalfAlbum(album) then
      var name := HalfAlbumName(album, contentId);
      if name == "" then Found(None, cache, before)
      else BadgeStep(StripEpisodePrefix(name), contentId, cache, before, services)
    else
      Found(Some(album.id), cache[contentId := CacheEntry(album.id, false)], before)
  }

  /** `findCommentPage`. */
  function FindCommentPage(contentId: String, cache: Cache, services: Services): (r: Found)
    ensures contentId in cache ==> r == Found(Some(cache[contentId].targetId), cache, [])
    ensures contentId !in cache ==> |r.lookups| >= 1 && r.lookups[0] == AlbumSearch
    ensures contentId !in cache ==> CachedAsFound(r, contentId, cache)
    ensures r.target.None? ==> r.cache == cache
    ensures forall i :: 0 <= i < |r.lookups| ==> !r.lookups[i].CommentSearch?
  {
    if contentId in cache then Found(Some(cache[contentId].targetId), cache, [])
    else
      var searched := [AlbumSearch];
      match services.albumSearch
      case Failed => Found(None, cache, searched)
      case Got(albums) =>
        if albums == [] then Found(None, cache, searched)
        else
          match FirstMatchingAlbum(albums, contentId)
          case None => FromContentName(contentId, cache, searched, services)
          case Some(i) => FromAlbum(albums[i], contentId, cache, searched, services)
  }

  /** The first album holding the content decides; an album without the marker is itself
      the thread, found with the album search alone. */
  lemma PlainAlbumIsItsOwnThread(contentId: String, cache: Cache, services: Services, albums: seq<Album>, i: nat)
    requires contentId !in cache
    requires services.albumSearch == Got(albums)
    requires i < |albums| && AlbumHolds(albums[i], contentId) && !IsHalfAlbum(albums[i])
    requires forall j :: 0 <= j < i ==> !AlbumHolds(albums[j], contentId)
    ensures FindCommentPage(contentId, cache, services) ==
              Found(Some(albums[i].id), cache[contentId := CacheEntry(albums[i].id, false)], [AlbumSearch])
  {
    var k := FirstMatchingAlbum(albums, contentId);
    if k.Some? && k.value < i {
    } else if k.Some? && k.value > i {
    }
  }

  /** With no album holding the content, its own short name, stripped of one episode-number
      prefix, is the badge search term. */
  lemma NoAlbumSearchesBadgeByOwnName(contentId: String, cache: Cache, services: Services, albums: seq<Album>, info: ContentInfo)
    requires contentId !in cache
    requires services.albumSearch == Got(albums) && albums != []
    requires forall j :: 0 <= j < |albums| ==> !AlbumHolds(albums[j], contentId)
    requires services.contentDetail(contentId) == Got(info) && info.shortName != ""
    ensures var r := FindCommentPage(contentId, cache, services);
            var hits := services.badgeSearch(StripEpisodePrefix(info.shortName));
            && r.lookups == [AlbumSearch, ContentFetch(contentId), BadgeSearch(StripEpisodePrefix(info.shortName))]
            && (r.target.Some? <==> hits.Got? && hits.value != [])
            && (r.target.Some? ==> r.target.value == hits.value[0].id)
  {
  }

  /** A marked album is searched as a badge, by the member's short name or else the
      album's name, with one episode-number prefix stripped. */
  lemma HalfAlbumSearchesBadge(contentId: String, cache: Cache, services: Services, albums: seq<Album>, i: nat)
    requires contentId !in cache
    requires services.albumSearch == Got(albums)
    requires i < |albums| && AlbumHolds(albums[i], contentId) && IsHalfAlbum(albums[i])
    requires forall j :: 0 <= j < i ==> !AlbumHolds(albums[j], contentId)
    ensures var name := HalfAlbumName(albums[i], contentId);
            var r := FindCommentPage(contentId, cache, services);
            var hits := services.badgeSearch(StripEpisodePrefix(name));
            && name != ""
            && r.lookups == [AlbumSearch, BadgeSearch(StripEpisodePrefix(name))]
            && (r.target.Some? <==> hits.Got? && hits.value != [])
            && (r.target.Some? ==> r.target.value == hits.value[0].id)
  {
    var k := FirstMatchingAlbum(albums, contentId);
    if k.Some? && k.value < i {
    } else if k.Some? && k.value > i {
    }
    var album := albums[i];
    var idx := IndexOf(album.name, HalfMarker);
    assert StartsWith(album.name[idx..], HalfMarker);
    var stripped := StripEpisodePrefix(album.name);
    if stripped == "" {
      assert |album.name| >= 1;
      if HasEpisodePrefix(album.name) {
        HalfMarkerSurvivesStrip(album.name, idx);
      }
    }
  }

  /** The marker never sits inside an episode-number prefix, so stripping keeps it. */
  lemma HalfMarkerSurvivesStrip(s: String, idx: int)
    requires 0 <= idx < |s| && s[idx] == HalfMarker[0]
    requires HasEpisodePrefix(s)
    ensures StripEpisodePrefix(s) != ""
  {
    var d := DigitRun(s[1..]);
    var colon := 1 + d;
    if colon < idx {
      var tail := s[colon + 1..];
      var r := TrimStart(tail);
      assert tail[idx - colon - 1] == HalfMarker[0];
    }
  }

  /** The page built from a successful comment search. */
  function PageOf(listing: CommentListing, page: int, contentId: String, direct: bool, targetId: String): CommentPage<Comment> {
    CommentPageFor(page, listing.reportedTotal, ToComments(listing.comments, contentId, direct, targetId, WithReplies))
  }

  /** The retry when the content's own thread is empty and nothing is cached for it:
      resolve the thread, then search it once more. */
  function RetryViaThread(contentId: String, page: int, size: int, cache: Cache, services: Services): (r: CommentsCall)
    requires contentId !in cache
    ensures r.pager.Some?
    ensures |r.lookups| >= 1 && r.lookups[0] == AlbumSearch
    ensures r.pager.value != EmptyCommentPage() ==> r.pager.value.contextPage == page + 1
    ensures r.cache == cache || (r.cache.Keys == cache.Keys + {contentId} && forall k :: k in cache ==> r.cache[k] == cache[k])
    ensures var found := FindCommentPage(contentId, cache, services);
            found.target.None? || found.target.value == "" ==>
              r == CommentsCall(Some(EmptyCommentPage()), found.cache, found.lookups)
    ensures var found := FindCommentPage(contentId, cache, services);
            found.target.Some? && found.target.value != "" ==>
              var thread := found.target.value;
              var search := services.commentSearch(thread, page, size);
              && r.cache == found.cache
              && r.lookups == found.lookups + [CommentSearch(thread, page, size)]
              && (search.Failed? ==> r.pager == Some(EmptyCommentPage()))
              && (search.Got? ==> ShowsListing(r.pager.value, search.value, page, contentId, false, thread, WithReplies))
  {
    var found := FindCommentPage(contentId, cache, services);
    if found.target.None? || found.target.value == "" then
      CommentsCall(Some(EmptyCommentPage()), found.cache, found.lookups)
    else
      var thread := found.target.value;
      var again := found.lookups + [CommentSearch(thread, page, size)];
      match services.commentSearch(thread, page, size)
      case Failed => CommentsCall(Some(EmptyCommentPage()), found.cache, again)
      case Got(listing) => CommentsCall(Some(PageOf(listing, page, contentId, false, thread)), found.cache, again)
  }

  /** `getComments` of the test variant. */
  function GetCommentsTest(
    signedIn: bool, url: String, token: Option<int>, pageSizeIndex: int,
    cache: Cache, services: Services): (r: CommentsCall)
    ensures !signedIn ==> r == CommentsCall(None, cache, [])
    ensures signedIn ==> r.pager.Some?
    ensures signedIn ==>
              var contentId := LastSegment(url);
              var target := if contentId in cache then cache[contentId].targetId else contentId;
              |r.lookups| >= 1 && r.lookups[0] == CommentSearch(target, PageFromToken(token), TestCommentPageSize(pageSizeIndex))
    ensures r.pager.Some? && r.pager.value != EmptyCommentPage() ==> r.pager.value.contextPage == PageFromToken(token) + 1
    ensures r.cache == cache || (LastSegment(url) !in cache && r.cache.Keys == cache.Keys + {LastSegment(url)}
                                 && forall k :: k in cache ==> r.cache[k] == cache[k])
    ensures signedIn ==>
              (AlbumSearch in r.lookups <==>
                 && LastSegment(url) !in cache
                 && var first := services.commentSearch(LastSegment(url), PageFromToken(token), TestCommentPageSize(pageSizeIndex));
                    first.Got? && first.value.comments == [])
    ensures signedIn ==>
              var contentId := LastSegment(url);
              var page := PageFromToken(token);
              var size := TestCommentPageSize(pageSizeIndex);
              var target := if contentId in cache then cache[contentId].targetId else contentId;
              var direct := if contentId in cache then cache[contentId].hasDirectComments else true;
              var first := services.commentSearch(target, page, size);
              && (first.Failed? ==> r.pager == Some(EmptyCommentPage()) && r.cache == cache)
              && (first.Got? && (contentId in cache || first.value.comments != []) ==>
                    && r.cache == cache && r.lookups == [CommentSearch(target, page, size)]
                    && ShowsListing(r.pager.value, first.value, page, contentId, direct, target, WithReplies))
              && (first.Got? && contentId !in cache && first.value.comments == [] ==>
                    var retry := RetryViaThread(contentId, page, size, cache, services);
                    r.pager == retry.pager && r.cache == retry.cache)
  {
    if !signedIn then CommentsCall(None, cache, [])
    else
      var contentId := LastSegment(url);
      var page := PageFromToken(token);
      var size := TestCommentPageSize(pageSizeIndex);
      var cached := contentId in cache;
      var target := if cached then cache[contentId].targetId else contentId;
      var direct := if cached then cache[contentId].hasDirectComments else true;
      var first := [CommentSearch(target, page, size)];
      match services.commentSearch(target, page, size)
      case Failed => CommentsCall(Some(EmptyCommentPage()), cache, first)
      case Got(listing) =>
        if listing.comments == [] && !cached then
          var retry := RetryViaThread(contentId, page, size, cache, services);
          var log := first + retry.lookups;
          assert log[1] == AlbumSearch;
          CommentsCall(retry.pager, retry.cache, log)
        else
          CommentsCall(Some(PageOf(listing, page, contentId, direct, target)), cache, first)
  }

  /** Paging: `hasMore` is `page < totalPages` for the listing that was shown, and the
      comments carry the thread they came from. */
  lemma DirectPageShape(url: String, token: Option<int>, pageSizeIndex: int, cache: Cache, services: Services, listing: CommentListing)
    requires LastSegment(url) !in cache
    requires services.commentSearch(LastSegment(url), PageFromToken(token), TestCommentPageSize(pageSizeIndex)) == Got(listing)
    requires listing.comments != []
    ensures var r := GetCommentsTest(true, url, token, pageSizeIndex, cache, services);
            && r.cache == cache
            && r.lookups == [CommentSearch(LastSegment(url), PageFromToken(token), TestCommentPageSize(pageSizeIndex))]
            && r.pager.value.hasMore == (PageFromToken(token) < TotalPages(listing.reportedTotal))
            && |r.pager.value.comments| == |listing.comments|
            && forall i :: 0 <= i < |listing.comments| ==>
                 r.pager.value.comments[i].context == CommentContext(LastSegment(url), listing.comments[i].id, None, None, Direct, LastSegment(url))
  {
    var r := GetCommentsTest(true, url, token, pageSizeIndex, cache, services);
    ShownDirectPage(r.pager.value, listing, PageFromToken(token), LastSegment(url));
  }

  /** What showing a listing as the content's own thread means for each comment. */
  lemma ShownDirectPage(p: CommentPage<Comment>, listing: CommentListing, page: int, contentId: String)
    requires ShowsListing(p, listing, page, contentId, true, contentId, WithReplies)
    ensures p.hasMore == (page < TotalPages(listing.reportedTotal))
    ensures |p.comments| == |listing.comments|
    ensures forall i :: 0 <= i < |listing.comments| ==>
              p.comments[i].context == CommentContext(contentId, listing.comments[i].id, None, None, Direct, contentId)
  {
  }

  /** Once a call has resolved and cached a thread, the next call for the same content
      goes straight to that thread and never searches albums again. */
  lemma SecondCallUsesCache(url: String, token: Option<int>, token2: Option<int>, pageSizeIndex: int, cache: Cache, services: Services)
    ensures var cache1 := GetCommentsTest(true, url, token, pageSizeIndex, cache, services).cache;
            var r2 := GetCommentsTest(true, url, token2, pageSizeIndex, cache1, services);
            LastSegment(url) in cache1 ==>
            && AlbumSearch !in r2.lookups
            && r2.lookups[0] == CommentSearch(cache1[LastSegment(url)].targetId, PageFromToken(token2), TestCommentPageSize(pageSizeIndex))
  {
  }
}
