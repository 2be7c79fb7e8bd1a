# Adventures in Odyssey plugin — verified model of its core rules

The plugin connects a media host to the Adventures in Odyssey catalogue. Nearly all of
it is HTTP calls plus host-object construction. This project models the rules that are
left once the network is replaced by inputs, and proves properties of them:

- **Access gate** (`access_gate.dfy`):
  - decoding the "Aired Today" / "Aired [Last] <Weekday>" label into days ago;
  - the two free-episode windows: at most 6 days (dev) and 0–7 days from a timestamp (test);
  - the sign-in decision of `getContentDetails`.
- **Comment-thread resolution** with the process-wide thread cache:
  - the test variant (`thread_resolver.dfy`): `findCommentPage`, plus the retry in `getComments`;
  - the dev and casting variants (`badge_resolver.dfy`): a direct thread if commenting is enabled, otherwise the first badge named after the content;
  - shared types and comment mapping live in `comment_threads.dfy`.
- **Paging** (`paging.dfy`, `reply_pager.dfy`):
  - the page-number continuation of the comment and channel pagers;
  - the in-memory reply pager.
- **Normalisation**:
  - recommendation de-duplication (`recommendations.dfy`);
  - search ranking (`ranking.dfy`);
  - the description layout (`description.dfy`);
  - search bucketing, playlist `videoCount` and video duration (`search.dfy`);
  - the episode-id list behind random selection (`episode_cache.dfy`).
- **Shared helpers**:
  - JavaScript string built-ins and the two regular expressions the core uses (`text.dfy`);
  - the upstream records (`upstream.dfy`);
  - `Option` and `Fetched` (`wrappers.dfy`).

How upstream is modelled:

- Each upstream request is an input. The album search is a `Fetched` value. Content details, badge search and comment search are functions of the request.
- `Failed` stands for any thrown error: a transport error, a JSON error, or a missing field that the source dereferences.
- Every request a resolver makes is appended to a `Lookup` log. This makes "no request on a cache hit" and "album search only when…" provable.
- The cache is a `map<String, CacheEntry>` passed in and returned.
- The clock is an input: "now" in milliseconds for the test variant, and today's weekday for the dev variant.

JavaScript semantics are written out:

- `x || d` treats the empty string, 0 and a missing value alike.
- `Math.round` rounds halves up.
- `Math.floor` of a positive divisor's quotient is Dafny's `/`.
- `toLowerCase` is modelled for ASCII letters only.
- `\s` is the ECMAScript white-space set.

The source marks badge-backed albums with a literal that its file stores as the two
characters "Â½" (U+00C2 U+00BD): the UTF-8 bytes of "½", read as Latin-1. Both
`findCommentPage` and `cacheEpisodeIds` compare album names against that literal, and
this model uses the same two characters (`Upstream.HalfMarker`). An album whose name holds
only "½" is therefore not treated as marked.

## Model

| member | source | states |
|---|---|---|
| Text.IndexOf | test/AIOScript.js:233-234 | `indexOf`: -1 exactly when the query occurs nowhere; otherwise the returned position holds the query and no earlier position does |
| Text.IndexFrom | test/AIOScript.js:233-234 | the search from position k finds the first occurrence at or after k, or reports that there is none |
| Text.LastSegment | test/AIOScript.js:1436 | the content id taken from a URL has no '/', is a suffix of the URL, and is preceded by '/' unless it is the whole URL |
| Text.LastSegmentIsLastPiece | test/AIOScript.js:1436 | `LastSegment` equals the last element of `split("/")`, which is what `pop()` returns |
| Text.ToLower | test/AIOScript.js:219-223 | lower-casing keeps the length and folds each character independently |
| Text.DigitRun | test/AIOScript.js:1304 | `\d+` takes the longest run of digits: everything before it is a digit, and the next character is not |
| Text.TrimStart | test/AIOScript.js:1304 | `\s*` drops the longest white-space prefix, and the rest does not start with white space |
| Text.StripEpisodePrefix | test/AIOScript.js:1304 | `replace(/^#\d+:\s*/, '')`: the result is a suffix of the input; the input is unchanged when it has no "#digits:" prefix; otherwise at least three characters go and no white space leads the rest |
| Text.StripEpisodePrefixOfComposed | test/AIOScript.js:1304 | stripping "#" + digits + ":" + spaces + rest gives exactly `rest` back |
| Text.CharIndex | dev/AIOScript.js:58 | the first occurrence of a character: it is there, and not before |
| Text.Split | dev/AIOScript.js:58 | `split(c)` gives at least one piece; the first piece is the separator-free prefix, followed by the separator if shorter than the string |
| Text.JoinSplit | dev/AIOScript.js:58 | joining the pieces of `split(c)` with `c` gives the string back |
| Text.SplitJoin | dev/AIOScript.js:70-75 | splitting a join of separator-free pieces gives the pieces back |
| Text.SplitLast | test/AIOScript.js:1436 | the last piece of a split is the part after the last separator |
| Text.ReplaceChar | dev/AIOScript.js:58 | `replace(/-/g, "/")` replaces every occurrence and nothing else, and none is left |
| AccessGate.WeekdayIndex | dev/AIOScript.js:93-105 | `dayNames.indexOf`: the index names the day; it is absent exactly for names outside the list |
| AccessGate.ParseRelativeLabelExact | dev/AIOScript.js:99-103 | `/^Aired (Last )?(\w+)$/` matches exactly the labels "Aired " [+ "Last "] + a non-empty word, and captures that flag and word |
| AccessGate.DaysAgo | dev/AIOScript.js:107-121 | `(7 + today − target) % 7` with 0 replaced by 7: a value in 1..7 that lands on the target weekday, and the smallest such |
| AccessGate.DecodeRelativeLabel | dev/AIOScript.js:91-125 | "Aired Today" is 0 days ago; any other decoded label is 1 to 7 days ago |
| AccessGate.DecodeWeekdayLabel | dev/AIOScript.js:99-125 | "Aired <Day>" and "Aired Last <Day>" both decode to the days since the most recent past occurrence of Day (7 on that weekday itself) |
| AccessGate.DecodeRejects | dev/AIOScript.js:99-105 | a label that is not "Aired Today" and has no known weekday word decodes to null |
| AccessGate.AiredTodayIsFreeDev | dev/AIOScript.js:91-135 | an episode that aired today is free exactly when the two clock reads are at most six days apart |
| AccessGate.OwnWeekdayIsNotFreeDev | dev/AIOScript.js:107-135 | a label naming today's weekday means 7 days ago, so it is never free, whatever the time between the clock reads |
| AccessGate.OtherWeekdayIsFreeDev | dev/AIOScript.js:107-135 | a label naming any other weekday is free exactly when its days ago plus the time between the two clock reads is at most six days; up to five days ago it is free for any gap under a day |
| AccessGate.TomorrowsWeekdayNeedsSameMillisecond | dev/AIOScript.js:107-135 | the weekday after today decodes to six days ago, so it is free exactly when both clock reads fall in the same millisecond |
| AccessGate.FreeTestWindowInMs | test/AIOScript.js:209-216 | a timestamp is free exactly when it parses and 0 ≤ now − air ≤ 7 days in milliseconds: future dates and unparseable dates are not free |
| AccessGate.FreeTestBoundaries | test/AIOScript.js:209-216 | one millisecond in the future is not free; exactly 7 days old is free; 7 days and 1 ms is not |
| AccessGate.ContentAccessTest | test/AIOScript.js:445-468 | direct media URLs need sign-in (lines 327-333); for content, an anonymous viewer of a non-podcast Audio/Video item gets LoginRequired exactly when the item is neither free nor unlocked by `secretVariable`, and a missing air date counts as not free; a granted result always has a media URL |
| AccessGate.ContentAccessDev | dev/AIOScript.js:171-187 | dev gate: LoginRequired exactly for an anonymous viewer of a non-podcast item whose label does not decode to free and without `secretVariable`; a missing label counts as not free; signed-in viewers always get the data |
| AccessGate.WindowsDisagreeAtSevenDays | test/AIOScript.js:209-216 | the two variants differ at 7 days: the test window admits it and the dev window does not |
| Recommendations.FilterPlayable | test/AIOScript.js:619-622 | only Audio/Video entries are kept, all of them, in their original order |
| Recommendations.Dedup | test/AIOScript.js:639-653 | the filter keeps each id once, never the current content, keeps exactly the ids not seen before, in input order (a subsequence), each as its first occurrence |
| Recommendations.DedupKeepsFirstSeenOrder | test/AIOScript.js:639-653 | of two kept entries, the one whose id occurs first in the input comes first |
| Recommendations.BuildRecommendations | test/AIOScript.js:608-660 | the list has distinct ids and never the current content; its ids are all candidate ids but the current one; each entry is the first candidate with its id; entries appear in the order their ids are first seen among next, extras, album, previous, recommendations |
| Recommendations.VideosKeepSubsequence | test/AIOScript.js:655-660 | converting entries to videos keeps the subsequence relation |
| Recommendations.NextEpisodeLeads | test/AIOScript.js:624-637 | a playable next episode that is not the current content comes first |
| Recommendations.NonPlayableNextIsDropped | test/AIOScript.js:624-628 | a next episode that is not Audio/Video does not appear when no other list (extras, album, previous episode, recommendations) carries its id |
| Ranking.CompareIsRankOrder | test/AIOScript.js:221-246 | the comparator is negative, zero or positive exactly when the first title ranks strictly better, the same, or strictly worse: exact match, then containing by earlier position, then the rest |
| Ranking.Insert | test/AIOScript.js:221-246 | inserting into a ranked list keeps it ranked and is a permutation of the list plus the new item |
| Ranking.InsertIsStable | test/AIOScript.js:244-245 | insertion keeps the items of every rank in their order, the new item first among its equals |
| Ranking.SortBy | test/AIOScript.js:221-246 | the sort yields a ranked permutation of its input |
| Ranking.SortByIsStable | test/AIOScript.js:244-245 | the sort keeps the items of every rank in their original relative order |
| Ranking.RankResults | test/AIOScript.js:218-247 | `rankResults` returns a permutation of its input, ordered by rank, with equally ranked items in their original relative order (a stable sort) |
| ReplyPager.Open | test/AIOScript.js:1212-1221 | the first page is `allResults[0..min(pageSize, n))`, and `hasMore == pageSize < n` |
| ReplyPager.Next | test/AIOScript.js:1223-1229 | `nextPage` yields `allResults[offset..min(offset+pageSize, n))`; the offset never decreases and never passes n; `hasMore == end < n` |
| ReplyPager.ExhaustedStaysEmpty | dev/AIOScript.js:740-746 | after the last page, further pages are empty and `hasMore` stays false |
| ReplyPager.NextMakesProgress | dev/AIOScript.js:740-746 | while `hasMore` holds, each page advances the offset by min(pageSize, remaining) |
| ReplyPager.ReadAll | test/AIOScript.js:1211-1230 | reading the pager to the end yields pages whose concatenation is `allResults`, the first being the constructor's page, none longer than the page size |
| Paging.PageFromToken | dev/CAST_AIOScript.js:456 | `continuationToken?.pageNumber \|\| 1`: no token or page 0 means page 1 |
| Paging.TotalPages | dev/AIOScript.js:843 | `totalPageCount \|\| 1`: a missing or zero total means one page |
| Paging.ChannelPageFor | dev/CAST_AIOScript.js:453-477 | a channel page fetches the token's page, keeps that page in its context, and `hasMore == page < totalPages`; fetch errors propagate |
| Paging.FollowChannel | dev/CAST_AIOScript.js:480-510 | following the channel video or playlist pager from the start requests pages 1, 2, …, totalPages, each once |
| Paging.CommentPageFor | test/AIOScript.js:1547-1548 | a comment page has `hasMore == page < totalPages` and a context holding page + 1 |
| Paging.EmptyCommentPage | test/AIOScript.js:1552 | the failure pager is empty, has no more pages, and holds page 1 |
| Paging.CommentPagingSkipsAPage | test/AIOScript.js:1236-1241 | as written, the page after page n is requested as n + 2: page 1 is followed by page 3 |
| Paging.CommentPagingAdvancesByOne | dev/AIOScript.js:753-758 | with the corrected `nextPage`, page n is followed by page n + 1 |
| Paging.FollowCommentsAsWritten | dev/CAST_AIOScript.js:589-594 | following the comment pager as written requests pages 1, 3, 5, …; page 2 is never requested when there are two or more pages |
| Paging.FollowComments | dev/CAST_AIOScript.js:719-720 | following the corrected comment pager requests every page from 1 to totalPages, each once |
| Paging.TestCommentPageSize | test/AIOScript.js:1440 | the page size is 10, 20, 30, 40 or 50 for setting 0..4, and 20 for any other setting |
| CommentThreads.ToReply | test/AIOScript.js:1503-1528 | an embedded reply keeps message and likes, has no replies or reply count, and its context names its parent, the content, the search type and the thread |
| CommentThreads.ToComment | dev/AIOScript.js:885-899 | a top-level comment keeps message, likes and reply count; its context names the content and the thread; it carries all its replies (test, dev) or none plus its page number (casting) |
| CommentThreads.ToComments | dev/CAST_AIOScript.js:690-716 | comments are mapped one for one, in order |
| CommentThreads.FirstBadge | dev/AIOScript.js:803-817 | one badge search is made; a thread is found exactly when the search succeeds with hits, and it is the first hit |
| ThreadResolver.FirstMatchingMember | test/AIOScript.js:1355 | `contentList.find`: the first member with a non-empty id that starts with the content id |
| ThreadResolver.FirstMatchingAlbum | test/AIOScript.js:1279-1286 | the first album with such a member, or none |
| ThreadResolver.BadgeStep | test/AIOScript.js:1307-1340 | one badge search by the given term; it finds a thread exactly when the search returns hits, and the thread is the first hit's id; a hit is cached as an indirect thread for the content, a miss leaves the cache alone |
| ThreadResolver.FromContentName | test/AIOScript.js:1288-1344 | with no album: fetch the content, then badge-search its stripped short name; failure writes no cache entry |
| ThreadResolver.FromAlbum | test/AIOScript.js:1347-1423 | a marked album is badge-searched; any other album is the thread itself, cached with no further request |
| ThreadResolver.FindCommentPage | test/AIOScript.js:1245-1428 | a cached thread is returned with no request; otherwise the album search comes first; every null result leaves the cache unchanged; a found thread is cached as indirect for the content |
| ThreadResolver.PlainAlbumIsItsOwnThread | test/AIOScript.js:1412-1422 | when the first album holding the content is unmarked, its id is the thread, found with the album search alone |
| ThreadResolver.NoAlbumSearchesBadgeByOwnName | test/AIOScript.js:1288-1320 | with no album holding the content, the requests are album search, content fetch, then a badge search by the short name with one "#digits:" prefix stripped |
| ThreadResolver.HalfAlbumSearchesBadge | test/AIOScript.js:1351-1387 | for a marked album, the badge search term is the member's short name (or else the stripped album name), stripped once more; that name is never empty |
| ThreadResolver.HalfMarkerSurvivesStrip | test/AIOScript.js:1359-1366 | a name holding the marker is never emptied by prefix stripping |
| ThreadResolver.GetCommentsTest | test/AIOScript.js:1430-1553 | signed-out viewers get nothing and no request; the first request is a comment search for the cached or own thread with the configured size; a failed search gives the empty pager and leaves the cache alone; a shown listing (cached thread, or direct comments) gives one comment per listed comment built from its listed comment (message, likes, reply count and replies), with `hasMore == page < totalPages`; an empty uncached listing hands over to the retry; album search happens exactly when there is no cache entry and the direct search returns no comments; at most one cache entry is added |
| ThreadResolver.RetryViaThread | test/AIOScript.js:1465-1553 | the retry starts with `findCommentPage`; with no thread it returns the empty pager and that call's cache and requests; otherwise it searches the thread once more, a failed search gives the empty pager, and a listing gives a page with one comment per listed comment, built from it (message, likes, reply count and replies) and tagged as a badge thread, `hasMore == page < totalPages` and the next page in the context |
| ThreadResolver.DirectPageShape | test/AIOScript.js:1488-1548 | when direct comments exist: one request, cache untouched, `hasMore == page < totalPages`, and every comment is marked direct with the content as thread |
| ThreadResolver.SecondCallUsesCache | test/AIOScript.js:1443-1466 | once a call has cached a thread, the next call for that content, on any page, queries the cached thread first and never searches albums |
| BadgeResolver.PageSize | dev/CAST_AIOScript.js:676-681 | the dev variant asks for 20 comments per page and the casting variant for 10 |
| BadgeResolver.ShapeFor | dev/CAST_AIOScript.js:698-715 | the dev variant carries replies; the casting variant puts the page number in the context |
| BadgeResolver.Resolve | dev/AIOScript.js:776-824 | a content fetch comes first; the thread is direct exactly when a commenting flag is set, and then it is the content itself; otherwise an empty short name, a failed search or no hits give nothing, and a hit gives the first badge for the stripped short name |
| BadgeResolver.ResolveByBadge | dev/AIOScript.js:790-817 | the badge path makes one badge search after the content fetch; it resolves exactly when the search succeeds with hits, and then to the first hit, never as a direct thread |
| BadgeResolver.FetchComments | dev/AIOScript.js:828-909 | a failed search gives the empty pager (page 1, no more); a listing gives one comment per listed comment, built from it (message, likes, reply count), tagged with the thread and search type, `hasMore == page < totalPages`, page + 1 in the context; the dev variant keeps each comment's replies one for one, the casting variant tags the page and drops them |
| BadgeResolver.CommentsFor | dev/CAST_AIOScript.js:600-725 | a cache hit makes exactly one comment request; a miss starts with a content fetch; an unresolved content gives the empty pager and no cache entry; a resolved one is cached; no album search ever happens; the page is the comment search of the cached or resolved thread |
| BadgeResolver.GetComments | dev/AIOScript.js:764-765 | the content id is the URL's last segment, and the page is the token's, default 1 |
| BadgeResolver.ResolutionCachedEvenIfSearchFails | dev/AIOScript.js:821-841 | the resolution is cached before the comment search, so it persists even when that search fails and the empty pager is returned |
| BadgeResolver.DirectContentIsItsOwnThread | dev/CAST_AIOScript.js:620-673 | content with commenting enabled: one content fetch, then its own comments; it is cached as direct; `hasMore == page < totalPages` |
| BadgeResolver.NoShortNameIsNotCached | dev/CAST_AIOScript.js:626-630 | content without commenting and without a short name yields the empty pager after a single request, with no cache entry |
| BadgeResolver.LaterCallsUseCache | dev/AIOScript.js:770-774 | after a call has cached a thread, later calls for that content skip resolution |
| Description.AirDateOnly | dev/AIOScript.js:58 | the air date is the text before the first 'T', with every '-' turned into '/' |
| Description.AuthorLines | dev/AIOScript.js:63-67 | one "role: name" line per author, in order |
| Description.FormatDescription | dev/AIOScript.js:52-89 | the description is the summary, then the air-date, authors, characters and Bible-verse blocks in that order, then the devotional block in the dev variant; each block is empty exactly when its detail is absent and otherwise is its heading and text |
| Description.OnlySummary | dev/CAST_AIOScript.js:95-126 | with no optional detail, the description is the summary alone |
| Description.DevExtendsCast | dev/CAST_AIOScript.js:95-126 | the dev description is the casting description plus the devotional block, and the two agree when there is no devotional |
| Description.AirDateFollowsSummary | dev/AIOScript.js:53-60 | the description starts with the summary, and when there is an air date, "Air Date: " and the date come right after the blank line that follows the summary |
| Description.CharactersRecoverable | dev/AIOScript.js:70-75 | the characters block starts with its heading, and its lines split back into the character names |
| Description.AirDateOfTimestamp | dev/AIOScript.js:58 | an ISO timestamp `date` + "T" + time yields `date` with slashes |
| Search.VideoCount | dev/CAST_AIOScript.js:374-378 | `Math.round(runtime / 23 min)`: the count is within half an episode of the runtime, halves round up, and a missing runtime gives 0 |
| Search.VideoCountIsNearest | dev/CAST_AIOScript.js:374-378 | no whole number of episodes is closer to the runtime than the count |
| Search.DurationSeconds | dev/AIOScript.js:494 | the duration is the length in whole seconds, rounded down, and 0 when absent |
| Search.Convert | dev/CAST_AIOScript.js:326-338 | a record becomes a playlist exactly when it comes from the grouping section, and keeps its id; the name defaults to "Untitled"; the URL is the content-group or content prefix followed by the id; a playlist's video count is the rounded runtime count and a video's duration is its length in whole seconds |
| Search.SplitByKindIsPermutation | dev/CAST_AIOScript.js:361 | playlists followed by videos is a permutation of all converted records |
| Search.AddItems | dev/CAST_AIOScript.js:347-358 | pushing a section's items of one kind appends exactly the playlists, or exactly the videos, in order, and leaves the other list alone |
| Search.AddSection | dev/CAST_AIOScript.js:347-358 | the inner loop appends a section's playlists and videos, in order, to the two lists |
| Search.SearchResults | dev/CAST_AIOScript.js:341-361 | the result is every playlist in section order, then every video in section order, and nothing else |
| EpisodeCache.AlbumIdsListed | test/AIOScript.js:72-83 | every Audio/Episode entry with a non-empty id and no "BONUS!" in its name has its id taken |
| EpisodeCache.AlbumIdsCarried | test/AIOScript.js:72-83 | every id taken is carried by such an entry |
| EpisodeCache.AlbumIdsMembership | test/AIOScript.js:72-83 | an id is taken from an album exactly when an Audio/Episode entry with a non-empty id and no "BONUS!" in its name carries it |
| EpisodeCache.EligibleIdsListed | test/AIOScript.js:57-86 | the id of an eligible episode in an album that is not skipped is listed |
| EpisodeCache.EligibleIdsContributed | test/AIOScript.js:57-86 | every listed id comes from an eligible episode of an album that is not skipped |
| EpisodeCache.EligibleIdsMembership | test/AIOScript.js:57-86 | an id is listed exactly when an eligible episode of an album that is not skipped carries it |
| EpisodeCache.FasterModeListsMore | test/AIOScript.js:59-70 | the faster mode skips no album, so it lists every id the normal mode lists |
| EpisodeCache.SkippedAlbumContributesNothing | test/AIOScript.js:60-69 | in normal mode, a marked or restricted album contributes none of its ids |
| EpisodeCache.AppendAlbum | test/AIOScript.js:72-83 | the loop over one album's entries appends exactly its eligible ids, in order |
| EpisodeCache.CollectIds | test/AIOScript.js:54-86 | the album walk yields the eligible ids in album and list order, none of them empty |
| EpisodeCache.CacheEpisodeIds | test/AIOScript.js:31-97 | a set memo answers; otherwise the walk's result is memoised; a failed search memoises and returns the empty list |
| EpisodeCache.RepeatedCallsAgree | test/AIOScript.js:32-34 | after the first call, every later call returns the same list, whatever mode it asks for and whatever upstream now holds |

## Left out

- HTTP transport, `fetchWithErrorHandling` and `JSON.parse`: every request is an input, and every thrown error is `Failed`.
- `Date` parsing, the wall clock and daylight-saving time: "now" (in ms), the parsed air date and today's weekday are inputs. An unparseable timestamp is `None`.
- The dev `isEpisodeFree` reads the clock twice: once to decode the label and once to take the age. The model takes the milliseconds between the two reads as an input, `elapsedMs`. The age is then `daysAgo` days plus `elapsedMs`. A daylight-saving change between the air date and today, which shifts `setDate` arithmetic by an hour, is not modelled.
- Host constructors (`PlatformVideo`, `PlatformPlaylist`, `Comment`, pagers, source descriptors, `AIORequestModifier`): results are plain records holding the fields the rules decide. Comment authors, avatars and dates are not modelled.
- `Math.random` episode selection in `buildRecommendations`: only the de-duplicated neighbour list is modelled.
- The test-variant `formatDescription`: its HTML image rewrite and debug fields are not modelled.
- The `is*Url` predicates, logging and settings plumbing: settings values are parameters.
- The root `AIOScript.js`: it is a single-request adapter with no rule of its own.
- Non-floored float durations (`media_length / 1000`) elsewhere in the sources.
- AccessGate.ContentAccessTest: an anonymous viewer's podcast refetch that fails with HTTP 401 raises the login-required exception in the source; here every failed refetch is `UpstreamError`. Failures while signing the direct-media cookies are folded into `DirectMedia`, because the signing is not modelled.
- AccessGate.ContentAccessDev: the same podcast refetch failing with HTTP 401 raises the login-required exception in the source; here it is `UpstreamError`, because HTTP status codes are not modelled.
- Text.ToLower: folds ASCII letters only, because full Unicode case mapping is outside the model.
- Text.IndexOf: positions count characters (Unicode scalar values), while JavaScript's `indexOf` counts UTF-16 code units. A title with characters outside the Basic Multilingual Plane before the match gets a smaller position here than in the source.
- Ranking.RankResults: because of the `Text.IndexOf` difference, two titles that contain the query can be ordered differently from the source when a character outside the Basic Multilingual Plane precedes a match.
- Search.VideoCount: runtimes are whole milliseconds, so fractional runtimes and NaN are not modelled.
- ReplyPager.ReadAll: requires a positive page size. With page size 0 the source pager never finishes, and its callers pass 60 (test) or 20 (dev).
- The reply pager is an immutable state value advanced by `Next`, not a mutable object. This keeps the same slicing and offset rules.
- The channel pagers of the test and dev variants (sign-in fallbacks, podcast filtering) are not part of this model. Only the casting variant's page-number continuation is modelled.
- Comment fields the resolvers only pass through (author, date) are not modelled.

## Findings

| source | as written | input that shows it | evidently intended | confidence | as-written member | corrected member |
|---|---|---|---|---|---|---|
| test/AIOScript.js:1236-1241, 1548 (the same in dev/AIOScript.js:753-758, 903 and dev/CAST_AIOScript.js:589-594, 720) | `getComments` stores `pageNumber + 1` in the pager's context, and `nextPage()` then requests `context.pageNumber + 1` | a thread with 3 pages: page 1 is shown, `nextPage()` requests page 3, and page 2 is never requested | `nextPage()` requests `context.pageNumber`, the page after the one shown | not executed | Paging.FollowCommentsAsWritten | Paging.FollowComments |
