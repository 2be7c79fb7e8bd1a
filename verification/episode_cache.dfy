/** The episode-id list behind random episode selection (test variant): every audio
    episode of every eligible album, fetched once and then memoised. */
module EpisodeCache {
  import opened Wrappers
  import opened Text
  import opened Upstream

  /** Albums skipped unless the caller asks for the faster, unfiltered mode. */
  const RestrictedAlbums: seq<String> :=
    ["Family Portraits", "The Officer Harley Collection", "#00: The Lost Episodes", "The Truth Chronicles"]

  const BonusMarker: String := "BONUS!"

  predicate IsSkipped(album: Album, fasterRandom: bool) {
    !fasterRandom && album.name != "" && (Contains(album.name, HalfMarker) || album.name in RestrictedAlbums)
  }

  /** The name checked for the bonus marker: `name || short_name || ""`. */
  function DisplayName(e: ContentRef): String {
    if e.name != "" then e.name else e.shortName
  }

  predicate IsEligible(e: ContentRef) {
    e.id != "" && e.kind == "Audio" && e.subtype == "Episode" && !Contains(DisplayName(e), BonusMarker)
  }

  /** The ids one album contributes, in list order. */
  function AlbumIds(entries: seq<ContentRef>): (ids: seq<String>)
    ensures |ids| <= |entries|
  {
    if entries == [] then []
    else AlbumIds(entries[..|entries| - 1])
         + (if IsEligible(entries[|entries| - 1]) then [entries[|entries| - 1].id] else [])
  }

  /** The reference result: album by album, episode by episode. */
  function EligibleIds(albums: seq<Album>, fasterRandom: bool): seq<String> {
    if albums == [] then []
    else EligibleIds(albums[..|albums| - 1], fasterRandom)
         + (if IsSkipped(albums[|albums| - 1], fasterRandom) then [] else AlbumIds(albums[|albums| - 1].contentList))
  }

  /** Entry `j` is an eligible episode with id `id`. */
  predicate CarriesAt(entries: seq<ContentRef>, j: int, id: String) {
    0 <= j < |entries| && IsEligible(entries[j]) && entries[j].id == id
  }

  /** `id` is contributed by entry `j` of an album. */
  predicate AlbumContributes(album: Album, fasterRandom: bool, j: int, id: String) {
    !IsSkipped(album, fasterRandom) && CarriesAt(album.contentList, j, id)
  }

  /** `id` is contributed by entry `j` of album `i`. */
  predicate ContributesAt(albums: seq<Album>, fasterRandom: bool, i: int, j: int, id: String) {
    0 <= i < |albums| && AlbumContributes(albums[i], fasterRandom, j, id)
  }

  lemma {:induction false} AlbumIdsListed(entries: seq<ContentRef>, j: int, id: String)
    requires CarriesAt(entries, j, id)
    ensures id in AlbumIds(entries)
    decreases |entries|
  {
    var n := |entries| - 1;
    var init := entries[..n];
    assert AlbumIds(entries) == AlbumIds(init) + (if IsEligible(entries[n]) then [entries[n].id] else []);
    if j < n {
      assert CarriesAt(init, j, id);
      AlbumIdsListed(init, j, id);
    }
  }

  lemma {:induction false} AlbumIdsCarried(entries: seq<ContentRef>, id: String) returns (j: int)
    requires id in AlbumIds(entries)
    ensures CarriesAt(entries, j, id)
    decreases |entries|
  {
    var n := |entries| - 1;
    var init := entries[..n];
    assert AlbumIds(entries) == AlbumIds(init) + (if IsEligible(entries[n]) then [entries[n].id] else []);
    if id in AlbumIds(init) {
      j := AlbumIdsCarried(init, id);
      assert entries[j] == init[j];
    } else {
      j := n;
    }
  }

  /** An id comes out of an album exactly when an eligible entry carries it. */
  lemma AlbumIdsMembership(entries: seq<ContentRef>, id: String)
    ensures id in AlbumIds(entries) <==> exists j :: CarriesAt(entries, j, id)
  {
    if id in AlbumIds(entries) {
      var j := AlbumIdsCarried(entries, id);
    }
    if exists j :: CarriesAt(entries, j, id) {
      var j :| CarriesAt(entries, j, id);
      AlbumIdsListed(entries, j, id);
    }
  }

  lemma {:induction false} EligibleIdsListed(albums: seq<Album>, fasterRandom: bool, i: int, j: int, id: String)
    requires ContributesAt(albums, fasterRandom, i, j, id)
    ensures id in EligibleIds(albums, fasterRandom)
    decreases |albums|
  {
    var n := |albums| - 1;
    var init := albums[..n];
    var last := albums[n];
    var tail := if IsSkipped(last, fasterRandom) then [] else AlbumIds(last.contentList);
    assert EligibleIds(albums, fasterRandom) == EligibleIds(init, fasterRandom) + tail;
    if i < n {
      assert init[i] == albums[i];
      EligibleIdsListed(init, fasterRandom, i, j, id);
    } else {
      AlbumIdsListed(last.contentList, j, id);
    }
  }

  lemma {:induction false} EligibleIdsContributed(albums: seq<Album>, fasterRandom: bool, id: String)
    returns (i: int, j: int)
    requires id in EligibleIds(albums, fasterRandom)
    ensures ContributesAt(albums, fasterRandom, i, j, id)
    decreases |albums|
  {
    var n := |albums| - 1;
    var init := albums[..n];
    var last := albums[n];
    var tail := if IsSkipped(last, fasterRandom) then [] else AlbumIds(last.contentList);
    assert EligibleIds(albums, fasterRandom) == EligibleIds(init, fasterRandom) + tail;
    if id in EligibleIds(init, fasterRandom) {
      i, j := EligibleIdsContributed(init, fasterRandom, id);
      assert init[i] == albums[i];
    } else {
      i := n;
      j := AlbumIdsCarried(last.contentList, id);
    }
  }

  /** An id is listed exactly when some eligible episode of some album that is not skipped
      carries it. */
  lemma EligibleIdsMembership(albums: seq<Album>, fasterRandom: bool, id: String)
    ensures id in EligibleIds(albums, fasterRandom) <==>
              exists i, j :: ContributesAt(albums, fasterRandom, i, j, id)
  {
    if id in EligibleIds(albums, fasterRandom) {
      var i, j := EligibleIdsContributed(albums, fasterRandom, id);
    }
    if exists i, j :: ContributesAt(albums, fasterRandom, i, j, id) {
      var i, j :| ContributesAt(albums, fasterRandom, i, j, id);
      EligibleIdsListed(albums, fasterRandom, i, j, id);
    }
  }

  /** The faster mode skips nothing, so it lists every id the normal mode lists. */
  lemma FasterModeListsMore(albums: seq<Album>, id: String)
    requires id in EligibleIds(albums, false)
    ensures id in EligibleIds(albums, true)
  {
    EligibleIdsMembership(albums, false, id);
    EligibleIdsMembership(albums, true, id);
    var i, j :| ContributesAt(albums, false, i, j, id);
    assert ContributesAt(albums, true, i, j, id);
  }

  /** A restricted or marked album contributes nothing in the normal mode. */
  lemma SkippedAlbumContributesNothing(albums: seq<Album>, i: int, id: String)
    requires 0 <= i < |albums| && IsSkipped(albums[i], false)
    requires forall k :: 0 <= k < |albums| && k != i ==>
               forall j :: 0 <= j < |albums[k].contentList| ==> albums[k].contentList[j].id != id
    ensures id !in EligibleIds(albums, false)
  {
    EligibleIdsMembership(albums, false, id);
  }

  /** The inner loop over one album's entries. */
  method AppendAlbum(ids: seq<String>, entries: seq<ContentRef>) returns (ids': seq<String>)
    ensures ids' == ids + AlbumIds(entries)
  {
    ids' := ids;
    var j := 0;
    while j < |entries|
      invariant 0 <= j <= |entries|
      invariant ids' == ids + AlbumIds(entries[..j])
    {
      assert entries[..j + 1][..j] == entries[..j];
      if IsEligible(entries[j]) {
        ids' := ids' + [entries[j].id];
      }
      j := j + 1;
    }
    assert entries[..j] == entries;
  }

  /** The album walk of `cacheEpisodeIds`. */
  method CollectIds(albums: seq<Album>, fasterRandom: bool) returns (ids: seq<String>)
    ensures ids == EligibleIds(albums, fasterRandom)
    ensures forall k :: 0 <= k < |ids| ==> ids[k] != ""
  {
    ids := [];
    var i := 0;
    while i < |albums|
      invariant 0 <= i <= |albums|
      invariant ids == EligibleIds(albums[..i], fasterRandom)
    {
      assert albums[..i + 1][..i] == albums[..i];
      if !IsSkipped(albums[i], fasterRandom) {
        ids := AppendAlbum(ids, albums[i].contentList);
      }
      i := i + 1;
    }
    assert albums[..i] == albums;
    forall k | 0 <= k < |ids|
      ensures ids[k] != ""
    {
      EligibleIdsMembership(albums, fasterRandom, ids[k]);
    }
  }

  /** `cacheEpisodeIds`: the memo (`cachedEpisodeIds`, None for null) answers when set;
      otherwise the album search is walked (as `CollectIds` does) and the result memoised,
      and a failed search memoises the empty list so it is not retried. */
  function CacheEpisodeIds(memo: Option<seq<String>>, fasterRandom: bool, albumSearch: Fetched<seq<Album>>)
    : (r: (seq<String>, Option<seq<String>>))
    ensures r.1 == Some(r.0)
    ensures memo.Some? ==> r.0 == memo.value
    ensures memo.None? && albumSearch.Failed? ==> r.0 == []
    ensures memo.None? && albumSearch.Got? ==> r.0 == EligibleIds(albumSearch.value, fasterRandom)
  {
    if memo.Some? then (memo.value, memo)
    else
      match albumSearch
      case Failed => ([], Some([]))
      case Got(albums) => (EligibleIds(albums, fasterRandom), Some(EligibleIds(albums, fasterRandom)))
  }

  /** Once set, the memo answers every later call, whatever mode that call asks for and
      whatever the album search would now return. */
  lemma RepeatedCallsAgree(memo: Option<seq<String>>, fasterRandom: bool, fasterRandom2: bool,
                           albumSearch: Fetched<seq<Album>>, albumSearch2: Fetched<seq<Album>>)
    ensures var first := CacheEpisodeIds(memo, fasterRandom, albumSearch);
            var second := CacheEpisodeIds(first.1, fasterRandom2, albumSearch2);
            second == first
  {
  }
}
