/** Page-number continuation shared by the comment, channel-content and channel-playlist
    pagers: the page a token asks for, `hasMore`, and the page the next call requests. */
module Paging {
  import opened Wrappers

  /** `continuationToken?.pageNumber || 1`: no token, or page 0, means page 1. */
  function PageFromToken(token: Option<int>): (page: int)
    ensures page != 0
    ensures token.None? || token.value == 0 ==> page == 1
    ensures token.Some? && token.value != 0 ==> page == token.value
  {
    if token.None? || token.value == 0 then 1 else token.value
  }

  /** `Number(reported || 1)`: a missing or zero page count means one page. */
  function TotalPages(reported: Option<int>): (t: int)
    ensures t != 0
    ensures reported.Some? && reported.value != 0 ==> t == reported.value
    ensures reported.None? ==> t == 1
  {
    if reported.None? || reported.value == 0 then 1 else reported.value
  }

  /** A page of a channel listing, and the context it keeps for `nextPage()`. */
  datatype ChannelPage<T> = ChannelPage(items: seq<T>, hasMore: bool, contextPage: int)

  /** One page of a channel listing as the page builder hands it to the pager: its
      items, already in the builder's order (the episode page, for one, sorts them newest
      first), and the page count upstream reports. */
  datatype Listing<T> = Listing(items: seq<T>, reportedTotal: Option<int>)

  /** `getChannelContents` / `getChannelPlaylists` (casting variant): fetch the page the
      token names; fetch errors propagate. */
  function ChannelPageFor<T>(token: Option<int>, fetch: int -> Fetched<Listing<T>>): (r: Fetched<ChannelPage<T>>)
    ensures fetch(PageFromToken(token)).Failed? <==> r.Failed?
    ensures r.Got? ==>
              && r.value.items == fetch(PageFromToken(token)).value.items
              && r.value.contextPage == PageFromToken(token)
              && r.value.hasMore == (PageFromToken(token) < TotalPages(fetch(PageFromToken(token)).value.reportedTotal))
  {
    var page := PageFromToken(token);
    match fetch(page)
    case Failed => Failed
    case Got(listing) => Got(ChannelPage(listing.items, page < TotalPages(listing.reportedTotal), page))
  }

  /** `nextPage()` of the channel pagers: the token for the page after the current one. */
  function ChannelNextToken<T>(p: ChannelPage<T>): Option<int> {
    Some(p.contextPage + 1)
  }

  /** Following the channel pagers from the first page visits pages 1, 2, 3, ... and stops
      at the last page upstream reports. */
  method FollowChannel<T>(fetch: int -> Fetched<Listing<T>>, reported: Option<int>) returns (visited: seq<int>)
    requires forall page :: fetch(page).Got? && fetch(page).value.reportedTotal == reported
    ensures |visited| == if TotalPages(reported) < 1 then 1 else TotalPages(reported)
    ensures forall i :: 0 <= i < |visited| ==> visited[i] == i + 1
  {
    var r := ChannelPageFor(None, fetch);
    visited := [r.value.contextPage];
    while r.value.hasMore
      invariant r.Got?
      invariant r.value.hasMore == (r.value.contextPage < TotalPages(reported))
      invariant |visited| == r.value.contextPage >= 1
      invariant r.value.contextPage <= TotalPages(reported) || r.value.contextPage == 1
      invariant forall i :: 0 <= i < |visited| ==> visited[i] == i + 1
      decreases TotalPages(reported) - r.value.contextPage
    {
      r := ChannelPageFor(ChannelNextToken(r.value), fetch);
      visited := visited + [r.value.contextPage];
    }
  }

  /** A page of comments and the context `{ url, pageNumber }` it keeps for `nextPage()`. */
  datatype CommentPage<T> = CommentPage(comments: seq<T>, hasMore: bool, contextPage: int)

  /** The pager `getComments` returns for page `page`: the context carries `page + 1`. */
  function CommentPageFor<T>(page: int, reported: Option<int>, comments: seq<T>): (r: CommentPage<T>)
    ensures r.comments == comments
    ensures r.hasMore <==> page < TotalPages(reported)
    ensures r.contextPage == page + 1
  {
    CommentPage(comments, page < TotalPages(reported), page + 1)
  }

  /** The pager every failure path of `getComments` returns. */
  function EmptyCommentPage<T>(): (r: CommentPage<T>)
    ensures r.comments == [] && !r.hasMore && r.contextPage == 1
  {
    CommentPage([], false, 1)
  }

  /** `AIOCommentPager.nextPage()` as written: `context.pageNumber + 1`. */
  function CommentNextTokenAsWritten<T>(p: CommentPage<T>): Option<int> {
    Some(p.contextPage + 1)
  }

  /** The next request the comment pagers evidently intend: the context already holds
      the following page number. */
  function CommentNextToken<T>(p: CommentPage<T>): Option<int> {
    Some(p.contextPage)
  }

  /** As written, the page after page `n` is requested as page `n + 2`; in particular the
      first page is followed by page 3 and page 2 is never fetched. */
  lemma CommentPagingSkipsAPage<T>(page: int, reported: Option<int>, comments: seq<T>)
    ensures PageFromToken(CommentNextTokenAsWritten(CommentPageFor(page, reported, comments))) ==
              if page == -2 then 1 else page + 2
    ensures PageFromToken(CommentNextTokenAsWritten(CommentPageFor(1, reported, comments))) == 3
  {
  }

  /** With the intended `nextPage()`, each request is for the page after the current one. */
  lemma CommentPagingAdvancesByOne<T>(page: int, reported: Option<int>, comments: seq<T>)
    requires page != -1
    ensures PageFromToken(CommentNextToken(CommentPageFor(page, reported, comments))) == page + 1
  {
  }

  /** Following the comment pager as written from the first page, for a thread upstream
      reports with `reported` pages: the pages requested are 1, 3, 5, ... */
  method FollowCommentsAsWritten(reported: Option<int>) returns (visited: seq<int>)
    ensures |visited| >= 1
    ensures forall i :: 0 <= i < |visited| ==> visited[i] == 2 * i + 1
    ensures TotalPages(reported) >= 2 ==> 2 !in visited
  {
    var page := PageFromToken(None);
    var p: CommentPage<()> := CommentPageFor(page, reported, []);
    visited := [page];
    while p.hasMore
      invariant page >= 1 && p == CommentPageFor(page, reported, [])
      invariant |visited| >= 1 && visited[|visited| - 1] == page
      invariant forall i :: 0 <= i < |visited| ==> visited[i] == 2 * i + 1
      decreases TotalPages(reported) - page
    {
      page := PageFromToken(CommentNextTokenAsWritten(p));
      p := CommentPageFor(page, reported, []);
      visited := visited + [page];
    }
  }

  /** Following the intended comment pager visits every page, 1 up to the reported count. */
  method FollowComments(reported: Option<int>) returns (visited: seq<int>)
    ensures |visited| == if TotalPages(reported) < 1 then 1 else TotalPages(reported)
    ensures forall i :: 0 <= i < |visited| ==> visited[i] == i + 1
  {
    var page := PageFromToken(None);
    var p: CommentPage<()> := CommentPageFor(page, reported, []);
    visited := [page];
    while p.hasMore
      invariant page >= 1 && p == CommentPageFor(page, reported, [])
      invariant |visited| == page
      invariant page <= TotalPages(reported) || page == 1
      invariant forall i :: 0 <= i < |visited| ==> visited[i] == i + 1
      decreases TotalPages(reported) - page
    {
      page := PageFromToken(CommentNextToken(p));
      p := CommentPageFor(page, reported, []);
      visited := visited + [page];
    }
  }

  /** The comment page size of the test variant: `[10, 20, 30, 40, 50][index] || 20`. */
  function TestCommentPageSize(index: int): (size: int)
    ensures 0 <= index < 5 ==> size == 10 * (index + 1)
    ensures !(0 <= index < 5) ==> size == 20
  {
    var sizes := [10, 20, 30, 40, 50];
    if 0 <= index < |sizes| then sizes[index] else 20
  }

  /** Fixed comment page sizes of the dev and casting variants. */
  const DevCommentPageSize: int := 20
  const CastCommentPageSize: int := 10
}
