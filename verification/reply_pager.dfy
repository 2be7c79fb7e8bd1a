/** `AIOReplyPager`: pages over replies already delivered inside their parent comment.
    The pager object is modelled as an immutable state; `Next` returns the state after
    one `nextPage()` call. */
module ReplyPager {

  /** The default page sizes of the test and dev variants. */
  const TestReplyPageSize: nat := 60
  const DevReplyPageSize: nat := 20

  datatype Pager<T> = Pager(allResults: seq<T>, pageSize: nat, offset: nat, results: seq<T>, hasMore: bool)

  function Min(a: int, b: int): int {
    if a < b then a else b
  }

  /** The state every pager reachable from `Open` keeps. */
  predicate Valid<T>(p: Pager<T>) {
    p.offset <= |p.allResults| && p.hasMore == (p.offset < |p.allResults|)
  }

  /** The constructor: the first page and where the next one starts. */
  function Open<T>(allResults: seq<T>, pageSize: nat): (p: Pager<T>)
    ensures Valid(p)
    ensures p.results == allResults[..Min(pageSize, |allResults|)]
    ensures p.hasMore == (pageSize < |allResults|)
    ensures p.allResults == allResults && p.pageSize == pageSize
  {
    var end := Min(pageSize, |allResults|);
    Pager(allResults, pageSize, end, allResults[..end], pageSize < |allResults|)
  }

  /** `nextPage()`: the window of `pageSize` replies from the current offset. */
  function Next<T>(p: Pager<T>): (q: Pager<T>)
    requires Valid(p)
    ensures Valid(q)
    ensures p.offset <= q.offset <= |p.allResults|
    ensures q.results == p.allResults[p.offset..q.offset]
    ensures q.offset == Min(p.offset + p.pageSize, |p.allResults|)
    ensures q.allResults == p.allResults && q.pageSize == p.pageSize
  {
    var end := Min(p.offset + p.pageSize, |p.allResults|);
    Pager(p.allResults, p.pageSize, end, p.allResults[p.offset..end], end < |p.allResults|)
  }

  /** Once everything has been handed out, every further page is empty and says so. */
  lemma ExhaustedStaysEmpty<T>(p: Pager<T>)
    requires Valid(p) && !p.hasMore
    ensures Next(p).results == [] && !Next(p).hasMore && Next(p).offset == p.offset
  {
  }

  /** A positive page size always makes progress while pages remain. */
  lemma NextMakesProgress<T>(p: Pager<T>)
    requires Valid(p) && p.hasMore && p.pageSize > 0
    ensures Next(p).offset > p.offset
    ensures |Next(p).results| == Min(p.pageSize, |p.allResults| - p.offset)
  {
  }

  function Flatten<T>(pages: seq<seq<T>>): seq<T> {
    if pages == [] then [] else Flatten(pages[..|pages| - 1]) + pages[|pages| - 1]
  }

  /** Follows a reply pager as the host does: the first page, then `nextPage()` while
      `hasMore`. The pages, joined, are exactly the delivered replies. */
  method ReadAll<T>(allResults: seq<T>, pageSize: nat) returns (pages: seq<seq<T>>)
    requires pageSize > 0
    ensures Flatten(pages) == allResults
    ensures |pages| > 0 && pages[0] == allResults[..Min(pageSize, |allResults|)]
    ensures forall i :: 0 <= i < |pages| ==> |pages[i]| <= pageSize
  {
    var p := Open(allResults, pageSize);
    pages := [p.results];
    assert Flatten(pages) == Flatten([]) + p.results;
    while p.hasMore
      invariant Valid(p) && p.allResults == allResults && p.pageSize == pageSize
      invariant Flatten(pages) == allResults[..p.offset]
      invariant |pages| > 0 && pages[0] == allResults[..Min(pageSize, |allResults|)]
      invariant forall i :: 0 <= i < |pages| ==> |pages[i]| <= pageSize
      decreases |allResults| - p.offset
    {
      var q := Next(p);
      assert allResults[..q.offset] == allResults[..p.offset] + q.results;
      assert (pages + [q.results])[..|pages|] == pages;
      pages := pages + [q.results];
      p := q;
    }
    assert allResults[..p.offset] == allResults;
  }
}
