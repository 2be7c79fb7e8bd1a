/** Search results of the casting variant: records from the grouping section become
    playlists, records from every other section become videos, and playlists come first. */
module Search {
  import opened Wrappers
  import opened Text
  import opened Upstream

  /** A search hit: `id`, `column1` (name) and the numeric `column3` / `column4` values,
      which hold a grouping's total runtime and a content's length in milliseconds. */
  datatype Record = Record(id: String, column1: String, column3: Option<int>, column4: Option<int>)

  /** One entry of `resultObjects`. */
  datatype Section = Section(objectName: String, results: seq<Record>)

  datatype Item =
    | Playlist(id: String, name: String, url: String, videoCount: int)
    | Video(id: String, name: String, url: String, duration: int)

  const GroupingObject: String := "Content_Grouping__c"

  /** The assumed length of one episode: 23 minutes. */
  const EpisodeMs: int := 23 * 60 * 1000

  /** `Math.round((runtime || 0) / EpisodeMs)`: halves round up. */
  function VideoCount(runtimeMs: Option<int>): (count: int)
    ensures var x := runtimeMs.GetOr(0);
            2 * EpisodeMs * count - EpisodeMs <= 2 * x < 2 * EpisodeMs * count + EpisodeMs
    ensures runtimeMs.None? ==> count == 0
  {
    var x := runtimeMs.GetOr(0);
    (2 * x + EpisodeMs) / (2 * EpisodeMs)
  }

  /** The count is the whole number of episodes nearest the runtime. */
  lemma VideoCountIsNearest(runtimeMs: int, k: int)
    ensures var c := VideoCount(Some(runtimeMs));
            Abs(runtimeMs - c * EpisodeMs) <= Abs(runtimeMs - k * EpisodeMs)
  {
    var c := VideoCount(Some(runtimeMs));
    if k < c {
      assert k * EpisodeMs <= c * EpisodeMs - EpisodeMs by { MultiplyMonotone(k, c - 1, EpisodeMs); }
    } else if k > c {
      assert k * EpisodeMs >= c * EpisodeMs + EpisodeMs by { MultiplyMonotone(c + 1, k, EpisodeMs); }
    }
  }

  function Abs(x: int): int {
    if x < 0 then -x else x
  }

  lemma MultiplyMonotone(a: int, b: int, m: nat)
    requires a <= b
    ensures a * m <= b * m
  {
  }

  /** `column4 ? Math.floor(column4 / 1000) : 0`: whole seconds, rounded down. */
  function DurationSeconds(lengthMs: Option<int>): (seconds: int)
    ensures lengthMs.None? || lengthMs.value == 0 ==> seconds == 0
    ensures lengthMs.Some? ==> 1000 * seconds <= lengthMs.value < 1000 * seconds + 1000
  {
    if lengthMs.None? || lengthMs.value == 0 then 0 else lengthMs.value / 1000
  }

  function NameOrUntitled(name: String): (r: String)
    ensures r != ""
    ensures name != "" ==> r == name
  {
    if name != "" then name else "Untitled"
  }

  /** `convertToPlatform`: a playlist for the grouping section, a video otherwise. */
  function Convert(rec: Record, objectName: String): (item: Item)
    ensures item.Playlist? <==> objectName == GroupingObject
    ensures item.id == rec.id && item.name == NameOrUntitled(rec.column1)
    ensures item.Playlist? ==> StartsWith(item.url, ContentGroupUrlPrefix) && item.url[|ContentGroupUrlPrefix|..] == rec.id
    ensures item.Video? ==> StartsWith(item.url, ContentUrlPrefix) && item.url[|ContentUrlPrefix|..] == rec.id
    ensures item.Playlist? ==> item.videoCount == VideoCount(rec.column3)
    ensures item.Video? ==> item.duration == DurationSeconds(rec.column4)
  {
    if objectName == GroupingObject then
      Playlist(rec.id, NameOrUntitled(rec.column1), ContentGroupUrlPrefix + rec.id, VideoCount(rec.column3))
    else
      Video(rec.id, NameOrUntitled(rec.column1), ContentUrlPrefix + rec.id, DurationSeconds(rec.column4))
  }

  function ConvertAll(recs: seq<Record>, objectName: String): (items: seq<Item>)
    ensures |items| == |recs|
    ensures forall i :: 0 <= i < |recs| ==> items[i] == Convert(recs[i], objectName)
  {
    seq(|recs|, i requires 0 <= i < |recs| => Convert(recs[i], objectName))
  }

  /** Every converted record, section by section, in upstream order. */
  function InOrder(sections: seq<Section>): seq<Item> {
    if sections == [] then []
    else InOrder(sections[..|sections| - 1])
         + ConvertAll(sections[|sections| - 1].results, sections[|sections| - 1].objectName)
  }

  function Playlists(items: seq<Item>): (r: seq<Item>)
    ensures forall i :: 0 <= i < |r| ==> r[i].Playlist?
  {
    if items == [] then []
    else Playlists(items[..|items| - 1]) + (if items[|items| - 1].Playlist? then [items[|items| - 1]] else [])
  }

  function Videos(items: seq<Item>): (r: seq<Item>)
    ensures forall i :: 0 <= i < |r| ==> r[i].Video?
  {
    if items == [] then []
    else Videos(items[..|items| - 1]) + (if items[|items| - 1].Video? then [items[|items| - 1]] else [])
  }

  lemma {:induction false} PlaylistsAppend(a: seq<Item>, b: seq<Item>)
    ensures Playlists(a + b) == Playlists(a) + Playlists(b)
    decreases |b|
  {
    if b == [] {
      assert a + b == a;
    } else {
      var b' := b[..|b| - 1];
      assert (a + b)[..|a + b| - 1] == a + b';
      PlaylistsAppend(a, b');
    }
  }

  lemma {:induction false} VideosAppend(a: seq<Item>, b: seq<Item>)
    ensures Videos(a + b) == Videos(a) + Videos(b)
    decreases |b|
  {
    if b == [] {
      assert a + b == a;
    } else {
      var b' := b[..|b| - 1];
      assert (a + b)[..|a + b| - 1] == a + b';
      VideosAppend(a, b');
    }
  }

  /** Splitting by kind loses and invents nothing. */
  lemma {:induction false} SplitByKindIsPermutation(items: seq<Item>)
    ensures multiset(Playlists(items) + Videos(items)) == multiset(items)
  {
    if items != [] {
      var init := items[..|items| - 1];
      SplitByKindIsPermutation(init);
      assert items == init + [items[|items| - 1]];
    }
  }

  /** One more item lands in exactly one of the two lists. */
  lemma SnocByKind(items: seq<Item>, item: Item)
    ensures Playlists(items + [item]) == Playlists(items) + (if item.Playlist? then [item] else [])
    ensures Videos(items + [item]) == Videos(items) + (if item.Video? then [item] else [])
  {
    assert (items + [item])[..|items|] == items;
  }

  /** The inner loop over one section's records: each converted record is pushed onto
      the playlists when the section is the grouping section, onto the videos otherwise. */
  method AddSection(playlists: seq<Item>, videos: seq<Item>, section: Section) returns (playlists': seq<Item>, videos': seq<Item>)
    ensures playlists' == playlists + Playlists(ConvertAll(section.results, section.objectName))
    ensures videos' == videos + Videos(ConvertAll(section.results, section.objectName))
  {
    var items := ConvertAll(section.results, section.objectName);
    playlists', videos' := AddItems(playlists, videos, items, section.objectName == GroupingObject);
  }

  /** Pushes items of one kind, all playlists or all videos, onto their list. */
  method AddItems(playlists: seq<Item>, videos: seq<Item>, items: seq<Item>, toPlaylists: bool)
    returns (playlists': seq<Item>, videos': seq<Item>)
    requires forall i :: 0 <= i < |items| ==> (items[i].Playlist? <==> toPlaylists)
    ensures playlists' == playlists + Playlists(items)
    ensures videos' == videos + Videos(items)
  {
    playlists', videos' := playlists, videos;
    var j := 0;
    while j < |items|
      invariant 0 <= j <= |items|
      invariant playlists' == playlists + Playlists(items[..j])
      invariant videos' == videos + Videos(items[..j])
    {
      var item := items[j];
      assert items[..j + 1] == items[..j] + [item];
      SnocByKind(items[..j], item);
      if toPlaylists {
        playlists' := playlists' + [item];
      } else {
        videos' := videos' + [item];
      }
      j := j + 1;
    }
    assert items[..j] == items;
  }

  /** The search loop: walk the sections and their records, pushing each converted
      record onto the playlist or the video list; the result is playlists then videos. */
  method SearchResults(sections: seq<Section>) returns (results: seq<Item>)
    ensures results == Playlists(InOrder(sections)) + Videos(InOrder(sections))
    ensures multiset(results) == multiset(InOrder(sections))
  {
    var playlists: seq<Item> := [];
    var videos: seq<Item> := [];
    var i := 0;
    while i < |sections|
      invariant 0 <= i <= |sections|
      invariant playlists == Playlists(InOrder(sections[..i]))
      invariant videos == Videos(InOrder(sections[..i]))
    {
      var section := sections[i];
      playlists, videos := AddSection(playlists, videos, section);
      assert sections[..i + 1][..i] == sections[..i];
      assert InOrder(sections[..i + 1]) == InOrder(sections[..i]) + ConvertAll(section.results, section.objectName);
      PlaylistsAppend(InOrder(sections[..i]), ConvertAll(section.results, section.objectName));
      VideosAppend(InOrder(sections[..i]), ConvertAll(section.results, section.objectName));
      i := i + 1;
    }
    assert sections[..i] == sections;
    results := playlists + videos;
    SplitByKindIsPermutation(InOrder(sections));
  }
}
