/** Search-result ordering of the test variant (`rankResults`): a stable sort by how well
    each title matches the query. */
module Ranking {
  import opened Text

  /** A search result as far as ranking sees it; `name` is `""` when absent. */
  datatype Hit = Hit(id: String, name: String)

  /** Match quality: tier 0 is an exact title, tier 1 a title containing the query at
      position `pos`, tier 2 a title without the query. Smaller is better. */
  datatype Rank = Rank(tier: nat, pos: nat)

  function RankOf(h: Hit, query: String): Rank {
    var title := ToLower(h.name);
    var q := ToLower(query);
    if title == q then Rank(0, 0)
    else
      var i := IndexOf(title, q);
      if i >= 0 then Rank(1, i) else Rank(2, 0)
  }

  predicate RankLe(a: Rank, b: Rank) {
    a.tier < b.tier || (a.tier == b.tier && a.pos <= b.pos)
  }

  /** The comparator handed to `Array.prototype.sort`, as written. */
  function Compare(a: Hit, b: Hit, query: String): int {
    var q := ToLower(query);
    var aTitle := ToLower(a.name);
    var bTitle := ToLower(b.name);
    var aExact := aTitle == q;
    var bExact := bTitle == q;
    if aExact && !bExact then -1
    else if bExact && !aExact then 1
    else
      var aIndex := IndexOf(aTitle, q);
      var bIndex := IndexOf(bTitle, q);
      if aIndex != -1 && bIndex == -1 then -1
      else if bIndex != -1 && aIndex == -1 then 1
      else if aIndex != -1 && bIndex != -1 && aIndex < bIndex then -1
      else if aIndex != -1 && bIndex != -1 && bIndex < aIndex then 1
      else 0
  }

  lemma IndexOfSelf(s: String)
    ensures IndexOf(s, s) == 0
  {
    assert s[0..] == s;
  }

  /** The comparator orders hits exactly by their rank: it puts `a` first iff `a` ranks
      strictly better, and calls them equal iff their ranks are equal. */
  lemma CompareIsRankOrder(a: Hit, b: Hit, query: String)
    ensures Compare(a, b, query) < 0 <==> !RankLe(RankOf(b, query), RankOf(a, query))
    ensures Compare(a, b, query) == 0 <==> RankOf(a, query) == RankOf(b, query)
    ensures Compare(a, b, query) > 0 <==> !RankLe(RankOf(a, query), RankOf(b, query))
  {
    IndexOfSelf(ToLower(query));
  }

  /** A ranking of hits; sorting is stated for any ranking, and `rankResults` uses the
      one its query induces. */
  type Ranker = Hit -> Rank

  function RankerFor(query: String): Ranker {
    h => RankOf(h, query)
  }

  predicate Sorted(xs: seq<Hit>, rank: Ranker) {
    forall i, j :: 0 <= i < j < |xs| ==> RankLe(rank(xs[i]), rank(xs[j]))
  }

  /** The hits of a given rank, in their order. */
  function WithRank(xs: seq<Hit>, rank: Ranker, k: Rank): seq<Hit> {
    if xs == [] then []
    else (if rank(xs[0]) == k then [xs[0]] else []) + WithRank(xs[1..], rank, k)
  }

  /** Every hit of `xs` ranks no better than `b`. */
  predicate AllAtLeast(b: Rank, xs: seq<Hit>, rank: Ranker) {
    forall j :: 0 <= j < |xs| ==> RankLe(b, rank(xs[j]))
  }

  /** A lower bound on the ranks of a list is one on any permutation of it. */
  lemma AllAtLeastPermuted(b: Rank, xs: seq<Hit>, ys: seq<Hit>, rank: Ranker)
    requires multiset(xs) == multiset(ys) && AllAtLeast(b, ys, rank)
    ensures AllAtLeast(b, xs, rank)
  {
    forall j | 0 <= j < |xs| ensures RankLe(b, rank(xs[j])) {
      assert xs[j] in multiset(ys);
      var m :| 0 <= m < |ys| && ys[m] == xs[j];
    }
  }

  /** A hit that ranks no worse than a sorted list may go in front of it. */
  lemma SortedCons(h: Hit, xs: seq<Hit>, rank: Ranker)
    requires Sorted(xs, rank) && AllAtLeast(rank(h), xs, rank)
    ensures Sorted([h] + xs, rank)
  {
    var r := [h] + xs;
    forall i, j | 0 <= i < j < |r| ensures RankLe(rank(r[i]), rank(r[j])) {
      assert r[j] == xs[j - 1];
      if i > 0 {
        assert r[i] == xs[i - 1];
      }
    }
  }

  lemma WithRankCons(h: Hit, xs: seq<Hit>, rank: Ranker, k: Rank)
    ensures WithRank([h] + xs, rank, k) == (if rank(h) == k then [h] else []) + WithRank(xs, rank, k)
  {
    assert ([h] + xs)[1..] == xs;
  }

  /** Places `x` before the first hit that does not rank strictly better. */
  function Insert(x: Hit, s: seq<Hit>, rank: Ranker): (r: seq<Hit>)
    requires Sorted(s, rank)
    ensures Sorted(r, rank)
    ensures multiset(r) == multiset([x] + s)
  {
    if s == [] || RankLe(rank(x), rank(s[0])) then
      SortedCons(x, s, rank);
      [x] + s
    else
      var rest := Insert(x, s[1..], rank);
      assert s == [s[0]] + s[1..];
      assert AllAtLeast(rank(s[0]), [x] + s[1..], rank) by {
        forall j | 0 <= j < |s| ensures RankLe(rank(s[0]), rank(([x] + s[1..])[j])) {
          if j > 0 {
            assert ([x] + s[1..])[j] == s[j];
          }
        }
      }
      AllAtLeastPermuted(rank(s[0]), rest, [x] + s[1..], rank);
      SortedCons(s[0], rest, rank);
      [s[0]] + rest
  }

  /** Insertion keeps the hits of every rank in their order, `x` first among its equals. */
  lemma {:induction false} InsertIsStable(x: Hit, s: seq<Hit>, rank: Ranker, k: Rank)
    requires Sorted(s, rank)
    ensures WithRank(Insert(x, s, rank), rank, k) == WithRank([x] + s, rank, k)
    decreases |s|
  {
    if !(s == [] || RankLe(rank(x), rank(s[0]))) {
      var rest := Insert(x, s[1..], rank);
      assert Insert(x, s, rank) == [s[0]] + rest;
      assert s == [s[0]] + s[1..];
      InsertIsStable(x, s[1..], rank, k);
      WithRankCons(s[0], rest, rank, k);
      WithRankCons(x, s[1..], rank, k);
      WithRankCons(x, s, rank, k);
      WithRankCons(s[0], s[1..], rank, k);
    }
  }

  /** Insertion sort by a ranking. */
  function SortBy(items: seq<Hit>, rank: Ranker): (r: seq<Hit>)
    ensures Sorted(r, rank)
    ensures multiset(r) == multiset(items)
  {
    if items == [] then []
    else
      var r := Insert(items[0], SortBy(items[1..], rank), rank);
      assert items == [items[0]] + items[1..];
      r
  }

  /** The sort is stable: the hits of each rank keep their relative order. */
  lemma {:induction false} SortByIsStable(items: seq<Hit>, rank: Ranker, k: Rank)
    ensures WithRank(SortBy(items, rank), rank, k) == WithRank(items, rank, k)
    decreases |items|
  {
    if items != [] {
      var sorted := SortBy(items[1..], rank);
      SortByIsStable(items[1..], rank, k);
      InsertIsStable(items[0], sorted, rank, k);
      assert items == [items[0]] + items[1..];
      WithRankCons(items[0], sorted, rank, k);
      WithRankCons(items[0], items[1..], rank, k);
    }
  }

  /** `rankResults`: a stable sort by how well each title matches the query. */
  function RankResults(items: seq<Hit>, query: String): (r: seq<Hit>)
    ensures Sorted(r, RankerFor(query))
    ensures multiset(r) == multiset(items)
    ensures forall k :: WithRank(r, RankerFor(query), k) == WithRank(items, RankerFor(query), k)
  {
    var r := SortBy(items, RankerFor(query));
    assert forall k :: WithRank(r, RankerFor(query), k) == WithRank(items, RankerFor(query), k) by {
      forall k ensures WithRank(r, RankerFor(query), k) == WithRank(items, RankerFor(query), k) {
        SortByIsStable(items, RankerFor(query), k);
      }
    }
    r
  }
}
