/** What the comment resolvers share: the thread-identity cache, the upstream services
    they call (as functions of the request), and the mapping of upstream comments into
    host comments. */
module CommentThreads {
  import opened Wrappers
  import opened Text
  import opened Upstream
  import opened Paging

  /** A cached resolution: the thread to query and whether it is the content's own. */
  datatype CacheEntry = CacheEntry(targetId: String, hasDirectComments: bool)

  /** The process-wide cache keyed by content id; entries are never removed. */
  type Cache = map<String, CacheEntry>

  /** A comment as upstream returns it; `replies` is its embedded `comments` list. */
  datatype RawComment = RawComment(
    id: String, message: String, numberOfLikes: int, numberOfComments: int, replies: seq<RawComment>)

  /** One page of the comment search: the comments and `metadata.totalPageCount`. */
  datatype CommentListing = CommentListing(comments: seq<RawComment>, reportedTotal: Option<int>)

  /** The upstream services, each as a function of its request. */
  datatype Services = Services(
    albumSearch: Fetched<seq<Album>>,
    contentDetail: String -> Fetched<ContentInfo>,
    badgeSearch: String -> Fetched<seq<BadgeHit>>,
    commentSearch: (String, int, int) -> Fetched<CommentListing>)

  datatype SearchType = Direct | Badge

  /** The context a host comment carries for fetching replies; the casting variant also
      records the page the comment was listed on. */
  datatype CommentContext = CommentContext(
    claimId: String, commentId: String, parentId: Option<String>, pageNumber: Option<int>,
    searchType: SearchType, searchId: String)

  /** How a variant shapes its comments: with embedded replies (test and dev), or flat
      with the page number in the context (casting). */
  datatype Shape = WithReplies | FlatOnPage(page: int)

  datatype Comment = Comment(
    message: String, likes: int, replyCount: int, context: CommentContext, replies: seq<Comment>)

  function SearchTypeOf(direct: bool): SearchType {
    if direct then Direct else Badge
  }

  /** An embedded reply: no reply count, no nested replies, and the parent's id. */
  function ToReply(r: RawComment, parentId: String, contentId: String, direct: bool, targetId: String): (c: Comment)
    ensures c.context == CommentContext(contentId, r.id, Some(parentId), None, SearchTypeOf(direct), targetId)
    ensures c.message == r.message && c.likes == r.numberOfLikes && c.replyCount == 0 && c.replies == []
  {
    Comment(r.message, r.numberOfLikes, 0, CommentContext(contentId, r.id, Some(parentId), None, SearchTypeOf(direct), targetId), [])
  }

  /** A top-level comment, shaped as the variant does. */
  function ToComment(r: RawComment, contentId: String, direct: bool, targetId: String, shape: Shape): (c: Comment)
    ensures c.context.claimId == contentId && c.context.commentId == r.id && c.context.parentId == None
    ensures c.context.searchType == SearchTypeOf(direct) && c.context.searchId == targetId
    ensures c.context.pageNumber == (if shape.FlatOnPage? then Some(shape.page) else None)
    ensures c.message == r.message && c.likes == r.numberOfLikes && c.replyCount == r.numberOfComments
    ensures shape.WithReplies? ==> |c.replies| == |r.replies|
    ensures shape.FlatOnPage? ==> c.replies == []
    ensures forall i :: 0 <= i < |c.replies| ==>
              c.replies[i] == ToReply(r.replies[i], r.id, contentId, direct, targetId)
  {
    match shape
    case WithReplies =>
      Comment(r.message, r.numberOfLikes, r.numberOfComments,
              CommentContext(contentId, r.id, None, None, SearchTypeOf(direct), targetId),
              seq(|r.replies|, i requires 0 <= i < |r.replies| => ToReply(r.replies[i], r.id, contentId, direct, targetId)))
    case FlatOnPage(page) =>
      Comment(r.message, r.numberOfLikes, r.numberOfComments,
              CommentContext(contentId, r.id, None, Some(page), SearchTypeOf(direct), targetId), [])
  }

  function ToComments(rs: seq<RawComment>, contentId: String, direct: bool, targetId: String, shape: Shape): (cs: seq<Comment>)
    ensures |cs| == |rs|
    ensures forall i :: 0 <= i < |rs| ==> cs[i] == ToComment(rs[i], contentId, direct, targetId, shape)
  {
    seq(|rs|, i requires 0 <= i < |rs| => ToComment(rs[i], contentId, direct, targetId, shape))
  }

  /** The page number a comment's context records under a shape. */
  function PageTag(shape: Shape): Option<int> {
    if shape.FlatOnPage? then Some(shape.page) else None
  }

  /** A page shows a listing when `hasMore` says whether the listing reports pages after
      this one, the context holds the page after it, and there is one comment per listed
      comment, in order, built from it by `ToComment` (message, likes, reply count and
      replies), tagged with the content, its own id and the thread it came from;
      replies are kept one for one or dropped as the shape says. */
  predicate ShowsListing(p: CommentPage<Comment>, listing: CommentListing, page: int,
                         contentId: String, direct: bool, thread: String, shape: Shape) {
    && p.hasMore == (page < TotalPages(listing.reportedTotal))
    && p.contextPage == page + 1
    && |p.comments| == |listing.comments|
    && forall i :: 0 <= i < |listing.comments| ==>
         && p.comments[i] == ToComment(listing.comments[i], contentId, direct, thread, shape)
         && p.comments[i].context == CommentContext(contentId, listing.comments[i].id, None, PageTag(shape), SearchTypeOf(direct), thread)
         && (shape.WithReplies? ==> |p.comments[i].replies| == |listing.comments[i].replies|)
         && (shape.FlatOnPage? ==> p.comments[i].replies == [])
  }

  /** What a call of `getComments` leaves behind: the pager (None when the source returns
      nothing), the cache, and the requests made, in order. */
  datatype CommentsCall = CommentsCall(pager: Option<CommentPage<Comment>>, cache: Cache, lookups: seq<Lookup>)

  /** The first badge found for `term`, with the search logged; None on failure or no hit. */
  function FirstBadge(term: String, services: Services): (r: (Option<String>, seq<Lookup>))
    ensures r.1 == [BadgeSearch(term)]
    ensures r.0.Some? <==> services.badgeSearch(term).Got? && services.badgeSearch(term).value != []
    ensures r.0.Some? ==> r.0.value == services.badgeSearch(term).value[0].id
  {
    match services.badgeSearch(term)
    case Failed => (None, [BadgeSearch(term)])
    case Got(hits) => (if hits == [] then None else Some(hits[0].id), [BadgeSearch(term)])
  }
}
