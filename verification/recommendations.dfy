/** Recommendation lists for a content item (test variant of `buildRecommendations`),
    leaving out the random-episode entry. */
module Recommendations {
  import opened Wrappers
  import opened Text
  import opened Upstream

  /** The neighbour lists of a content detail record, already unwrapped from the
      alternative shapes (`in_album.content_list` or `in_album`, `extras.content_list` or `extras`). */
  datatype Neighbours = Neighbours(
    nextEpisode: Option<ContentRef>,
    extras: seq<ContentRef>,
    album: seq<ContentRef>,
    previousEpisode: Option<ContentRef>,
    recommendations: seq<ContentRef>)

  /** A recommended video as handed to the host. */
  datatype Video = Video(id: String, name: String, url: String)

  function Ids(xs: seq<ContentRef>): set<String> {
    set x | x in xs :: x.id
  }

  /** The first entry of `xs` with the given id. */
  function FirstWithId(xs: seq<ContentRef>, id: String): Option<ContentRef> {
    if xs == [] then None
    else if xs[0].id == id then Some(xs[0])
    else FirstWithId(xs[1..], id)
  }

  /** The position of the first entry with the given id, or `|xs|` when there is none. */
  function FirstIndex(xs: seq<ContentRef>, id: String): (k: nat)
    ensures k <= |xs|
    ensures k < |xs| ==> xs[k].id == id
    ensures forall j :: 0 <= j < k ==> xs[j].id != id
  {
    if xs == [] then 0
    else if xs[0].id == id then 0
    else 1 + FirstIndex(xs[1..], id)
  }

  predicate IsSubsequence<T(==)>(a: seq<T>, b: seq<T>) {
    if a == [] then true
    else if b == [] then false
    else if a[0] == b[0] then IsSubsequence(a[1..], b[1..])
    else IsSubsequence(a, b[1..])
  }

  function FilterPlayable(xs: seq<ContentRef>): (r: seq<ContentRef>)
    ensures forall i :: 0 <= i < |r| ==> IsPlayable(r[i])
    ensures forall x :: x in xs && IsPlayable(x) ==> x in r
    ensures IsSubsequence(r, xs)
  {
    if xs == [] then []
    else if IsPlayable(xs[0]) then [xs[0]] + FilterPlayable(xs[1..])
    else
      var r := FilterPlayable(xs[1..]);
      assert r != [] ==> r[0] != xs[0];
      r
  }

  function PlayableOne(x: Option<ContentRef>): seq<ContentRef> {
    if x.Some? && IsPlayable(x.value) then [x.value] else []
  }

  /** The candidate list in the order next episode, extras, album, previous episode,
      recommendations; neighbours and extras only when they are audio or video. */
  function Candidates(n: Neighbours): seq<ContentRef> {
    PlayableOne(n.nextEpisode) + FilterPlayable(n.extras) + n.album
    + PlayableOne(n.previousEpisode) + n.recommendations
  }

  /** The filter with a set of seen ids: drops the current content and every id seen
      before, keeping the rest in order. */
  function Dedup(xs: seq<ContentRef>, current: String, seen: set<String>): (r: seq<ContentRef>)
    ensures forall i, j :: 0 <= i < j < |r| ==> r[i].id != r[j].id
    ensures forall i :: 0 <= i < |r| ==> r[i].id != current && r[i].id !in seen
    ensures Ids(r) == Ids(xs) - seen - {current}
    ensures IsSubsequence(r, xs)
    ensures forall k :: 0 <= k < |r| ==> FirstWithId(xs, r[k].id) == Some(r[k])
  {
    if xs == [] then []
    else if xs[0].id == current || xs[0].id in seen then
      var r := Dedup(xs[1..], current, seen);
      assert Ids(xs) == {xs[0].id} + Ids(xs[1..]) by { IdsCons(xs); }
      assert r != [] ==> r[0] != xs[0];
      r
    else
      var rest := Dedup(xs[1..], current, seen + {xs[0].id});
      var r := [xs[0]] + rest;
      assert Ids(xs) == {xs[0].id} + Ids(xs[1..]) by { IdsCons(xs); }
      assert Ids(r) == {xs[0].id} + Ids(rest) by { IdsCons(r); }
      assert r[1..] == rest;
      r
  }

  lemma IdsCons(xs: seq<ContentRef>)
    requires xs != []
    ensures Ids(xs) == {xs[0].id} + Ids(xs[1..])
  {
    assert xs == [xs[0]] + xs[1..];
  }

  /** Of two entries of `r`, the one whose id occurs first in `xs` comes first. */
  predicate InFirstSeenOrder(r: seq<ContentRef>, xs: seq<ContentRef>) {
    forall i, j :: 0 <= i < j < |r| ==> FirstIndex(xs, r[i].id) < FirstIndex(xs, r[j].id)
  }

  /** The filter keeps first-seen order. */
  lemma {:induction false} DedupKeepsFirstSeenOrder(xs: seq<ContentRef>, current: String, seen: set<String>)
    ensures InFirstSeenOrder(Dedup(xs, current, seen), xs)
    decreases |xs|
  {
    if xs != [] {
      var r := Dedup(xs, current, seen);
      if xs[0].id == current || xs[0].id in seen {
        DedupKeepsFirstSeenOrder(xs[1..], current, seen);
        FirstSeenOrderSkip(xs, r);
      } else {
        var rest := Dedup(xs[1..], current, seen + {xs[0].id});
        DedupKeepsFirstSeenOrder(xs[1..], current, seen + {xs[0].id});
        FirstSeenOrderCons(xs, rest);
      }
    }
  }

  /** Entries that avoid the head's id keep their order when the head is put back. */
  lemma FirstSeenOrderSkip(xs: seq<ContentRef>, r: seq<ContentRef>)
    requires xs != [] && InFirstSeenOrder(r, xs[1..])
    requires forall k :: 0 <= k < |r| ==> r[k].id != xs[0].id
    ensures InFirstSeenOrder(r, xs)
  {
    forall i, j | 0 <= i < j < |r| ensures FirstIndex(xs, r[i].id) < FirstIndex(xs, r[j].id) {
      FirstIndexTail(xs, r[i].id);
      FirstIndexTail(xs, r[j].id);
    }
  }

  /** The head in front of entries that avoid its id is in first-seen order. */
  lemma FirstSeenOrderCons(xs: seq<ContentRef>, rest: seq<ContentRef>)
    requires xs != [] && InFirstSeenOrder(rest, xs[1..])
    requires forall k :: 0 <= k < |rest| ==> rest[k].id != xs[0].id
    ensures InFirstSeenOrder([xs[0]] + rest, xs)
  {
    var r := [xs[0]] + rest;
    FirstSeenOrderSkip(xs, rest);
    forall i, j | 0 <= i < j < |r| ensures FirstIndex(xs, r[i].id) < FirstIndex(xs, r[j].id) {
      assert r[j] == rest[j - 1];
      FirstIndexTail(xs, rest[j - 1].id);
      if i > 0 {
        assert r[i] == rest[i - 1];
      }
    }
  }

  lemma FirstIndexTail(xs: seq<ContentRef>, id: String)
    requires xs != [] && xs[0].id != id
    ensures FirstIndex(xs, id) == 1 + FirstIndex(xs[1..], id)
  {
  }

  function ToVideo(c: ContentRef): (v: Video)
    ensures v.id == c.id && v.name != "" && StartsWith(v.url, ContentUrlPrefix)
  {
    var name := if c.shortName != "" then c.shortName else if c.name != "" then c.name else "Untitled";
    Video(c.id, name, ContentUrlPrefix + c.id)
  }

  function Videos(xs: seq<ContentRef>): (r: seq<Video>)
    ensures |r| == |xs|
    ensures forall i :: 0 <= i < |xs| ==> r[i] == ToVideo(xs[i])
  {
    seq(|xs|, i requires 0 <= i < |xs| => ToVideo(xs[i]))
  }

  lemma {:induction false} VideosKeepSubsequence(a: seq<ContentRef>, b: seq<ContentRef>)
    requires IsSubsequence(a, b)
    ensures IsSubsequence(Videos(a), Videos(b))
    decreases |a| + |b|
  {
    if a != [] && b != [] {
      assert Videos(a)[1..] == Videos(a[1..]);
      assert Videos(b)[1..] == Videos(b[1..]);
      if a[0] == b[0] {
        VideosKeepSubsequence(a[1..], b[1..]);
      } else {
        VideosKeepSubsequence(a, b[1..]);
        if Videos(a)[0] == Videos(b)[0] {
          SubsequenceDropFront(Videos(a), Videos(b)[1..]);
        }
      }
    }
  }

  /** Dropping the head of a subsequence keeps it a subsequence. */
  lemma {:induction false} SubsequenceDropFront<T>(a: seq<T>, b: seq<T>)
    requires a != [] && IsSubsequence(a, b)
    ensures IsSubsequence(a[1..], b)
    decreases |b|, 0
  {
    if b != [] {
      if a[0] == b[0] {
        SubsequenceWeaken(a[1..], b[1..], b[0]);
      } else {
        SubsequenceDropFront(a, b[1..]);
        SubsequenceWeaken(a[1..], b[1..], b[0]);
      }
    }
  }

  /** A subsequence of `b` is a subsequence of `[x] + b`. */
  lemma {:induction false} SubsequenceWeaken<T>(a: seq<T>, b: seq<T>, x: T)
    requires IsSubsequence(a, b)
    ensures IsSubsequence(a, [x] + b)
    decreases |b|, 1
  {
    assert ([x] + b)[1..] == b;
    if a != [] && a[0] == x {
      SubsequenceDropFront(a, b);
    }
  }

  /** The recommendation videos for `contentId`: each candidate id once, never the current
      content, every video built from the first candidate carrying its id, in candidate order. */
  function BuildRecommendations(n: Neighbours, contentId: String): (r: seq<Video>)
    ensures forall i, j :: 0 <= i < j < |r| ==> r[i].id != r[j].id
    ensures forall i :: 0 <= i < |r| ==> r[i].id != contentId
    ensures (set v | v in r :: v.id) == Ids(Candidates(n)) - {contentId}
    ensures forall k :: 0 <= k < |r| ==>
              FirstWithId(Candidates(n), r[k].id).Some? && r[k] == ToVideo(FirstWithId(Candidates(n), r[k].id).value)
    ensures IsSubsequence(r, Videos(Candidates(n)))
    ensures forall i, j :: 0 <= i < j < |r| ==> FirstIndex(Candidates(n), r[i].id) < FirstIndex(Candidates(n), r[j].id)
  {
    var c := Candidates(n);
    KeptVideosOrder(c, contentId);
    KeptVideosDistinct(c, contentId);
    KeptVideosIds(c, contentId);
    KeptVideosFirst(c, contentId);
    VideosKeepSubsequence(Dedup(c, contentId, {}), c);
    Videos(Dedup(c, contentId, {}))
  }

  lemma KeptVideosDistinct(c: seq<ContentRef>, contentId: String)
    ensures var r := Videos(Dedup(c, contentId, {}));
            && (forall i, j :: 0 <= i < j < |r| ==> r[i].id != r[j].id)
            && (forall i :: 0 <= i < |r| ==> r[i].id != contentId)
  {
    var kept := Dedup(c, contentId, {});
    assert forall i :: 0 <= i < |kept| ==> Videos(kept)[i].id == kept[i].id;
  }

  lemma KeptVideosOrder(c: seq<ContentRef>, contentId: String)
    ensures var r := Videos(Dedup(c, contentId, {}));
            forall i, j :: 0 <= i < j < |r| ==> FirstIndex(c, r[i].id) < FirstIndex(c, r[j].id)
  {
    var kept := Dedup(c, contentId, {});
    DedupKeepsFirstSeenOrder(c, contentId, {});
    assert forall i :: 0 <= i < |kept| ==> Videos(kept)[i].id == kept[i].id;
  }

  lemma KeptVideosIds(c: seq<ContentRef>, contentId: String)
    ensures (set v | v in Videos(Dedup(c, contentId, {})) :: v.id) == Ids(c) - {contentId}
  {
    VideoIds(Dedup(c, contentId, {}));
  }

  /** The videos of a list carry exactly its ids. */
  lemma VideoIds(xs: seq<ContentRef>)
    ensures (set v | v in Videos(xs) :: v.id) == Ids(xs)
  {
    var r := Videos(xs);
    forall id | id in Ids(xs) ensures id in (set v | v in r :: v.id) {
      var k :| 0 <= k < |xs| && xs[k].id == id;
      assert r[k].id == id;
    }
  }

  lemma KeptVideosFirst(c: seq<ContentRef>, contentId: String)
    ensures var r := Videos(Dedup(c, contentId, {}));
            forall k :: 0 <= k < |r| ==>
              FirstWithId(c, r[k].id).Some? && r[k] == ToVideo(FirstWithId(c, r[k].id).value)
  {
    var kept := Dedup(c, contentId, {});
    var r := Videos(kept);
    forall k | 0 <= k < |r| ensures FirstWithId(c, r[k].id) == Some(kept[k]) {
      assert r[k].id == kept[k].id;
    }
  }

  /** A playable next episode that is not the current content leads the list. */
  lemma NextEpisodeLeads(n: Neighbours, contentId: String)
    requires n.nextEpisode.Some? && IsPlayable(n.nextEpisode.value)
    requires n.nextEpisode.value.id != contentId
    ensures |BuildRecommendations(n, contentId)| > 0
    ensures BuildRecommendations(n, contentId)[0] == ToVideo(n.nextEpisode.value)
  {
    var c := Candidates(n);
    assert c[0] == n.nextEpisode.value;
  }

  /** A neighbour that is not audio or video contributes nothing unless the same id
      comes from the album or the recommendations. */
  lemma NonPlayableNextIsDropped(n: Neighbours, contentId: String)
    requires n.nextEpisode.Some? && !IsPlayable(n.nextEpisode.value)
    requires forall x :: x in n.extras + n.album + n.recommendations ==> x.id != n.nextEpisode.value.id
    requires n.previousEpisode.Some? ==> n.previousEpisode.value.id != n.nextEpisode.value.id
    ensures forall v :: v in BuildRecommendations(n, contentId) ==> v.id != n.nextEpisode.value.id
  {
    var id := n.nextEpisode.value.id;
    assert id !in Ids(Candidates(n)) by { NextIdNotCandidate(n); }
    var r := BuildRecommendations(n, contentId);
    var ids := set w | w in r :: w.id;
    assert ids == Ids(Candidates(n)) - {contentId};
    forall v | v in r ensures v.id != id {
      assert v.id in ids;
    }
  }

  lemma NextIdNotCandidate(n: Neighbours)
    requires n.nextEpisode.Some? && !IsPlayable(n.nextEpisode.value)
    requires forall x :: x in n.extras + n.album + n.recommendations ==> x.id != n.nextEpisode.value.id
    requires n.previousEpisode.Some? ==> n.previousEpisode.value.id != n.nextEpisode.value.id
    ensures n.nextEpisode.value.id !in Ids(Candidates(n))
  {
    var c := Candidates(n);
    assert c == FilterPlayable(n.extras) + n.album + PlayableOne(n.previousEpisode) + n.recommendations;
    forall x | x in c ensures x.id != n.nextEpisode.value.id {
      if x in FilterPlayable(n.extras) {
        FilterPlayableMember(n.extras, x);
      }
    }
  }

  lemma FirstWithIdMember(xs: seq<ContentRef>, id: String)
    requires FirstWithId(xs, id).Some?
    ensures FirstWithId(xs, id).value in xs && FirstWithId(xs, id).value.id == id
  {
    if xs[0].id != id {
      FirstWithIdMember(xs[1..], id);
    }
  }

  lemma FilterPlayableMember(xs: seq<ContentRef>, x: ContentRef)
    requires x in FilterPlayable(xs)
    ensures x in xs
  {
    if xs != [] && !(IsPlayable(xs[0]) && x == xs[0]) {
      FilterPlayableMember(xs[1..], x);
    }
  }
}
