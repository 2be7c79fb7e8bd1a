/** Comment-thread resolution of the dev and casting variants: the content's own thread
    when it allows comments, otherwise the first badge named after it. */
module BadgeResolver {
  import opened Wrappers
  import opened Text
  import opened Upstream
  import opened Paging
  import opened CommentThreads

  /** The two variants differ only in page size and comment shape. */
  datatype Variant = Dev | Cast

  function PageSize(v: Variant): (size: int)
    ensures size == (if v.Dev? then DevCommentPageSize else CastCommentPageSize)
    ensures size > 0
  {
    match v
    case Dev => 20
    case Cast => 10
  }

  function ShapeFor(v: Variant, page: int): (shape: Shape)
    ensures v.Dev? <==> shape.WithReplies?
    ensures shape.FlatOnPage? ==> shape.page == page
  {
    match v
    case Dev => WithReplies
    case Cast => FlatOnPage(page)
  }

  /** Comments are the content's own when either commenting flag is set. */
  predicate HasDirectComments(info: ContentInfo) {
    info.enableCommenting || info.disableCommentPosting
  }

  /** A resolution: the thread and whether it is direct, or nothing; with the requests made. */
  datatype Resolution = Resolved(targetId: String, direct: bool, lookups: seq<Lookup>) | Unresolved(lookups: seq<Lookup>)

  /** The badge search term for a content's short name. */
  function BadgeTerm(info: ContentInfo): String {
    StripEpisodePrefix(info.shortName)
  }

  /** Resolution on a cache miss. */
  function Resolve(contentId: String, services: Services): (r: Resolution)
    ensures |r.lookups| >= 1 && r.lookups[0] == ContentFetch(contentId)
    ensures forall i :: 0 <= i < |r.lookups| ==> r.lookups[i].ContentFetch? || r.lookups[i].BadgeSearch?
    ensures services.contentDetail(contentId).Failed? ==> r == Unresolved([ContentFetch(contentId)])
    ensures services.contentDetail(contentId).Got? ==>
              var info := services.contentDetail(contentId).value;
              && (HasDirectComments(info) ==> r == Resolved(contentId, true, [ContentFetch(contentId)]))
              && (!HasDirectComments(info) && info.shortName == "" ==> r == Unresolved([ContentFetch(contentId)]))
              && (!HasDirectComments(info) && info.shortName != "" ==>
                    && r.lookups == [ContentFetch(contentId), BadgeSearch(BadgeTerm(info))]
                    && (r.Resolved? <==> services.badgeSearch(BadgeTerm(info)).Got? && services.badgeSearch(BadgeTerm(info)).value != [])
                    && (r.Resolved? ==> !r.direct && r.targetId == services.badgeSearch(BadgeTerm(info)).value[0].id))
  {
    var fetched := [ContentFetch(contentId)];
    match services.contentDetail(contentId)
    case Failed => Unresolved(fetched)
    case Got(info) =>
      if HasDirectComments(info) then Resolved(contentId, true, fetched)
      else if info.shortName == "" then Unresolved(fetched)
      else ResolveByBadge(contentId, BadgeTerm(info), services)
  }

  /** The badge path of a resolution: after the content fetch, one badge search by `term`. */
  function ResolveByBadge(contentId: String, term: String, services: Services): (r: Resolution)
    ensures r.lookups == [ContentFetch(contentId), BadgeSearch(term)]
    ensures r.Resolved? <==> services.badgeSearch(term).Got? && services.badgeSearch(term).value != []
    ensures r.Resolved? ==> !r.direct && r.targetId == services.badgeSearch(term).value[0].id
  {
    var (hit, log) := FirstBadge(term, services);
    match hit
    case None => Unresolved([ContentFetch(contentId)] + log)
    case Some(id) => Resolved(id, false, [ContentFetch(contentId)] + log)
  }

  /** The page built from a successful comment search. */
  function PageOf(v: Variant, listing: CommentListing, page: int, contentId: String, direct: bool, targetId: String): CommentPage<Comment> {
    CommentPageFor(page, listing.reportedTotal, ToComments(listing.comments, contentId, direct, targetId, ShapeFor(v, page)))
  }

  /** The comment search once the thread is known. */
  function FetchComments(v: Variant, page: int, contentId: String, direct: bool, targetId: String, services: Services): (p: CommentPage<Comment>)
    ensures p == EmptyCommentPage() || p.contextPage == page + 1
    ensures services.commentSearch(targetId, page, PageSize(v)).Failed? ==> p == EmptyCommentPage()
    ensures services.commentSearch(targetId, page, PageSize(v)).Got? ==>
              ShowsListing(p, services.commentSearch(targetId, page, PageSize(v)).value, page, contentId, direct, targetId, ShapeFor(v, page))
    ensures forall i :: 0 <= i < |p.comments| ==>
              && p.comments[i].context.searchType == SearchTypeOf(direct)
              && p.comments[i].context.searchId == targetId
              && p.comments[i].context.pageNumber == (if v.Cast? then Some(page) else None)
              && (v.Cast? ==> p.comments[i].replies == [])
  {
    match services.commentSearch(targetId, page, PageSize(v))
    case Failed => EmptyCommentPage()
    case Got(listing) => PageOf(v, listing, page, contentId, direct, targetId)
  }

  /** The body of `getComments` once the content id and page are known. */
  function CommentsFor(v: Variant, contentId: String, page: int, cache: Cache, services: Services): (r: CommentsCall)
    ensures r.pager.Some?
    ensures contentId in cache ==>
              && r.cache == cache
              && r.lookups == [CommentSearch(cache[contentId].targetId, page, PageSize(v))]
              && r.pager == Some(FetchComments(v, page, contentId, cache[contentId].hasDirectComments, cache[contentId].targetId, services))
    ensures contentId !in cache ==>
              && |r.lookups| >= 1 && r.lookups[0] == ContentFetch(contentId)
              && var res := Resolve(contentId, services);
                 && (res.Unresolved? ==> r == CommentsCall(Some(EmptyCommentPage()), cache, res.lookups))
                 && (res.Resolved? ==>
                       && r.cache == cache[contentId := CacheEntry(res.targetId, res.direct)]
                       && r.pager == Some(FetchComments(v, page, contentId, res.direct, res.targetId, services)))
    ensures forall i :: 0 <= i < |r.lookups| ==> r.lookups[i] != AlbumSearch
    ensures forall i :: 0 <= i < |r.lookups| && r.lookups[i].CommentSearch? ==>
              r.lookups[i].pageNumber == page && r.lookups[i].pageSize == PageSize(v)
    ensures r.pager.value != EmptyCommentPage() ==> r.pager.value.contextPage == page + 1
    ensures forall i :: 0 <= i < |r.pager.value.comments| ==>
              && r.pager.value.comments[i].context.pageNumber == (if v.Cast? then Some(page) else None)
              && (v.Cast? ==> r.pager.value.comments[i].replies == [])
  {
    if contentId in cache then
      var e := cache[contentId];
      CommentsCall(Some(FetchComments(v, page, contentId, e.hasDirectComments, e.targetId, services)), cache,
                   [CommentSearch(e.targetId, page, PageSize(v))])
    else
      ResolveThenFetch(v, contentId, page, cache, services)
  }

  /** The cache-miss half of `CommentsFor`: resolve, then cache the thread and search it. */
  function ResolveThenFetch(v: Variant, contentId: String, page: int, cache: Cache, services: Services): (r: CommentsCall)
    ensures r.pager.Some?
    ensures |r.lookups| >= 1 && r.lookups[0] == ContentFetch(contentId)
    ensures var res := Resolve(contentId, services);
            && (res.Unresolved? ==> r == CommentsCall(Some(EmptyCommentPage()), cache, res.lookups))
            && (res.Resolved? ==>
                  && r.cache == cache[contentId := CacheEntry(res.targetId, res.direct)]
                  && r.pager == Some(FetchComments(v, page, contentId, res.direct, res.targetId, services)))
    ensures forall i :: 0 <= i < |r.lookups| ==> r.lookups[i] != AlbumSearch
    ensures forall i :: 0 <= i < |r.lookups| && r.lookups[i].CommentSearch? ==>
              r.lookups[i].pageNumber == page && r.lookups[i].pageSize == PageSize(v)
  {
    var res := Resolve(contentId, services);
    if res.Unresolved? then CommentsCall(Some(EmptyCommentPage()), cache, res.lookups)
    else
      var log := res.lookups + [CommentSearch(res.targetId, page, PageSize(v))];
      assert log[0] == ContentFetch(contentId);
      assert forall i :: 0 <= i < |res.lookups| ==> log[i] == res.lookups[i];
      CommentsCall(Some(FetchComments(v, page, contentId, res.direct, res.targetId, services)),
                   cache[contentId := CacheEntry(res.targetId, res.direct)], log)
  }

  /** `getComments` of the dev (`v == Dev`) and casting (`v == Cast`) variants: the content
      id is the URL's last segment and the page is the token's, defaulting to 1. */
  function GetComments(v: Variant, url: String, token: Option<int>, cache: Cache, services: Services): (r: CommentsCall)
    ensures r.pager.Some?
    ensures |r.lookups| >= 1
    ensures r.lookups[0] == (if LastSegment(url) in cache
                             then CommentSearch(cache[LastSegment(url)].targetId, PageFromToken(token), PageSize(v))
                             else ContentFetch(LastSegment(url)))
    ensures forall i :: 0 <= i < |r.lookups| && r.lookups[i].CommentSearch? ==> r.lookups[i].pageNumber == PageFromToken(token)
  {
    CommentsFor(v, LastSegment(url), PageFromToken(token), cache, services)
  }

  /** The resolution is cached before the comment search, so it sticks even when the
      search fails; and it records whether the thread is the content's own. */
  lemma ResolutionCachedEvenIfSearchFails(v: Variant, contentId: String, page: int, cache: Cache, services: Services)
    requires contentId !in cache
    ensures var res := Resolve(contentId, services);
            var r := CommentsFor(v, contentId, page, cache, services);
            res.Resolved? ==>
            && r.cache == cache[contentId := CacheEntry(res.targetId, res.direct)]
            && (res.direct ==> res.targetId == contentId)
            && (services.commentSearch(res.targetId, page, PageSize(v)).Failed? ==>
                  r.pager == Some(EmptyCommentPage()))
  {
  }

  /** Content with commenting enabled is its own thread: one content request, then its
      comments, and the pager's comments point back at it. */
  lemma DirectContentIsItsOwnThread(v: Variant, contentId: String, page: int, cache: Cache, services: Services,
                                    info: ContentInfo, listing: CommentListing)
    requires contentId !in cache
    requires services.contentDetail(contentId) == Got(info) && HasDirectComments(info)
    requires services.commentSearch(contentId, page, PageSize(v)) == Got(listing)
    ensures var r := CommentsFor(v, contentId, page, cache, services);
            && r.lookups == [ContentFetch(contentId), CommentSearch(contentId, page, PageSize(v))]
            && r.cache == cache[contentId := CacheEntry(contentId, true)]
            && r.pager.value.hasMore == (page < TotalPages(listing.reportedTotal))
            && |r.pager.value.comments| == |listing.comments|
            && forall i :: 0 <= i < |listing.comments| ==>
                 && r.pager.value.comments[i].context.searchType == Direct
                 && r.pager.value.comments[i].context.searchId == contentId
  {
    assert Resolve(contentId, services) == Resolved(contentId, true, [ContentFetch(contentId)]);
    var p := FetchComments(v, page, contentId, true, contentId, services);
    assert p == PageOf(v, listing, page, contentId, true, contentId);
  }

  /** Content without commenting and without a short name yields the empty pager after
      one content request, and nothing is cached, so the next call asks again. */
  lemma NoShortNameIsNotCached(v: Variant, contentId: String, page: int, cache: Cache, services: Services, info: ContentInfo)
    requires contentId !in cache
    requires services.contentDetail(contentId) == Got(info) && !HasDirectComments(info) && info.shortName == ""
    ensures CommentsFor(v, contentId, page, cache, services) ==
              CommentsCall(Some(EmptyCommentPage()), cache, [ContentFetch(contentId)])
  {
  }

  /** A later call for the same content, on any page, reuses the cached thread. */
  lemma LaterCallsUseCache(v: Variant, contentId: String, page: int, page2: int, cache: Cache, services: Services)
    ensures var cache1 := CommentsFor(v, contentId, page, cache, services).cache;
            var r2 := CommentsFor(v, contentId, page2, cache1, services);
            contentId in cache1 ==>
            && r2.cache == cache1
            && r2.lookups == [CommentSearch(cache1[contentId].targetId, page2, PageSize(v))]
  {
  }
}
