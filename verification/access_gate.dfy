/** The free-access gate: relative air-day labels, the two free windows and the
    anonymous-viewer decision in `getContentDetails`. Time is integer input:
    the current weekday (0 = Sunday, as `Date.getDay` counts) and "now" in milliseconds. */
module AccessGate {
  import opened Wrappers
  import opened Text

  type Weekday = d: int | 0 <= d < 7

  const DayNames: seq<String> := ["Sunday", "Monday", "Tuesday", "Wednesday", "Thursday", "Friday", "Saturday"]

  const MsPerDay: int := 1000 * 60 * 60 * 24

  /** `dayNames.indexOf(name)`. */
  function WeekdayIndex(name: String): (r: Option<Weekday>)
    ensures r.Some? ==> DayNames[r.value] == name
    ensures r.None? <==> name !in DayNames
  {
    if name == DayNames[0] then Some(0)
    else if name == DayNames[1] then Some(1)
    else if name == DayNames[2] then Some(2)
    else if name == DayNames[3] then Some(3)
    else if name == DayNames[4] then Some(4)
    else if name == DayNames[5] then Some(5)
    else if name == DayNames[6] then Some(6)
    else None
  }

  /** Matching against `^Aired (Last )?(\w+)$`: whether "Last " is present, and the word. */
  function ParseRelativeLabel(airLabel: String): Option<(bool, String)> {
    if !StartsWith(airLabel, "Aired ") then None
    else
      var rest := airLabel[6..];
      if StartsWith(rest, "Last ") && IsWord(rest[5..]) then Some((true, rest[5..]))
      else if IsWord(rest) then Some((false, rest))
      else None
  }

  function LabelFor(hasLast: bool, word: String): String {
    "Aired " + (if hasLast then "Last " else "") + word
  }

  /** The label parser accepts exactly the labels of the pattern, both ways round. */
  lemma ParseRelativeLabelExact(airLabel: String, hasLast: bool, word: String)
    ensures ParseRelativeLabel(airLabel) == Some((hasLast, word)) <==> IsWord(word) && airLabel == LabelFor(hasLast, word)
  {
    var l := LabelFor(hasLast, word);
    if IsWord(word) && airLabel == l {
      assert l[..6] == "Aired ";
      if hasLast {
        assert l[6..] == "Last " + word;
        assert l[6..][..5] == "Last ";
        assert l[6..][5..] == word;
      } else {
        assert l[6..] == word;
        if |word| >= 5 {
          assert IsWordChar(word[4]);
          assert word[..5][4] == word[4];
        }
      }
    }
    if ParseRelativeLabel(airLabel) == Some((hasLast, word)) {
      assert airLabel == airLabel[..6] + airLabel[6..];
      var rest := airLabel[6..];
      if hasLast {
        assert rest == rest[..5] + rest[5..];
      }
    }
  }

  /** The weekday `k` days before `today`. */
  function WeekdayBefore(today: Weekday, k: int): Weekday {
    (today - k) % 7
  }

  /** How many days back the most recent earlier `target` weekday lies. */
  function DaysAgo(today: Weekday, target: Weekday): (d: int)
    ensures 1 <= d <= 7
    ensures WeekdayBefore(today, d) == target
    ensures forall k :: 1 <= k < d ==> WeekdayBefore(today, k) != target
  {
    var d := (7 + today - target) % 7;
    if d == 0 then 7 else d
  }

  /** `getAirDateFromRelativeLabel` (dev variant), as the number of days before today
      that the returned date lies; None where the source returns null. */
  function DecodeRelativeLabel(airLabel: String, today: Weekday): (r: Option<int>)
    ensures airLabel == "Aired Today" ==> r == Some(0)
    ensures airLabel != "Aired Today" && r.Some? ==> 1 <= r.value <= 7
  {
    if airLabel == "Aired Today" then Some(0)
    else
      match ParseRelativeLabel(airLabel)
      case None => None
      case Some((_, day)) =>
        match WeekdayIndex(day)
        case None => None
        case Some(target) => Some(DaysAgo(today, target))
  }

  /** A weekday airLabel, with or without "Last", decodes to the most recent strictly
      earlier occurrence of that weekday. */
  lemma DecodeWeekdayLabel(hasLast: bool, target: Weekday, today: Weekday)
    ensures DecodeRelativeLabel(LabelFor(hasLast, DayNames[target]), today) == Some(DaysAgo(today, target))
  {
    var w := DayNames[target];
    var airLabel := LabelFor(hasLast, w);
    assert ParseRelativeLabel(airLabel) == Some((hasLast, w)) by {
      DayNameIsWord(target);
      ParseRelativeLabelExact(airLabel, hasLast, w);
    }
    assert WeekdayIndex(w) == Some(target) by {
      WeekdayIndexOfName(target);
    }
    assert airLabel != "Aired Today" by {
      if hasLast {
        assert airLabel[6] == 'L';
      } else {
        assert airLabel[6..] == w;
        assert w != "Today";
      }
    }
  }

  /** Every day name matches `\w+`. */
  lemma DayNameIsWord(d: Weekday)
    ensures IsWord(DayNames[d])
  {
    var w := DayNames[d];
    forall i | 0 <= i < |w| ensures IsWordChar(w[i]) {
      assert 'A' <= w[i] <= 'Z' || 'a' <= w[i] <= 'z';
    }
  }

  /** The day names are distinct, so each one finds its own index. */
  lemma WeekdayIndexOfName(d: Weekday)
    ensures WeekdayIndex(DayNames[d]) == Some(d)
  {
    assert DayNames[d] == DayNames[WeekdayIndex(DayNames[d]).value];
  }

  /** A label that does not fit the pattern, or names no weekday, decodes to null. */
  lemma DecodeRejects(airLabel: String, today: Weekday)
    requires airLabel != "Aired Today"
    requires forall h: bool, w: String :: airLabel == LabelFor(h, w) ==> !IsWord(w) || w !in DayNames
    ensures DecodeRelativeLabel(airLabel, today) == None
  {
    match ParseRelativeLabel(airLabel)
    case None =>
    case Some((h, w)) =>
      ParseRelativeLabelExact(airLabel, h, w);
  }

  /** `isEpisodeFree` in the dev variant. The label is decoded against one reading of the
      clock and the age is taken against a second one, `elapsedMs` later; the air date is
      that many whole days before the first reading, so the age in milliseconds is
      `daysAgo` days plus `elapsedMs`, and it must be at most six days. */
  function IsEpisodeFreeDev(airLabel: String, today: Weekday, elapsedMs: nat): bool {
    match DecodeRelativeLabel(airLabel, today)
    case None => false
    case Some(daysAgo) => daysAgo * MsPerDay + elapsedMs <= 6 * MsPerDay
  }

  /** An episode that aired today stays free for six days of clock drift between the reads. */
  lemma AiredTodayIsFreeDev(today: Weekday, elapsedMs: nat)
    ensures IsEpisodeFreeDev("Aired Today", today, elapsedMs) <==> elapsedMs <= 6 * MsPerDay
  {
  }

  /** Today's own weekday name reads as a week ago, which is outside the six-day window. */
  lemma OwnWeekdayIsNotFreeDev(hasLast: bool, today: Weekday, elapsedMs: nat)
    ensures !IsEpisodeFreeDev(LabelFor(hasLast, DayNames[today]), today, elapsedMs)
  {
    var airLabel := LabelFor(hasLast, DayNames[today]);
    assert DecodeRelativeLabel(airLabel, today) == Some(7) by {
      DecodeWeekdayLabel(hasLast, today, today);
    }
  }

  /** Any other weekday name is free exactly when its whole days ago plus the time between
      the two clock reads stay within six days; up to five days ago that holds for any
      drift under a day. */
  lemma OtherWeekdayIsFreeDev(hasLast: bool, target: Weekday, today: Weekday, elapsedMs: nat)
    requires target != today
    ensures IsEpisodeFreeDev(LabelFor(hasLast, DayNames[target]), today, elapsedMs) <==>
              DaysAgo(today, target) * MsPerDay + elapsedMs <= 6 * MsPerDay
    ensures DaysAgo(today, target) <= 5 && elapsedMs <= MsPerDay ==>
              IsEpisodeFreeDev(LabelFor(hasLast, DayNames[target]), today, elapsedMs)
  {
    var airLabel := LabelFor(hasLast, DayNames[target]);
    assert DecodeRelativeLabel(airLabel, today) == Some(DaysAgo(today, target)) by {
      DecodeWeekdayLabel(hasLast, target, today);
    }
  }

  /** The weekday after today reads as six days ago, on the very edge of the window: it is
      free only when both clock reads fall in the same millisecond. */
  lemma TomorrowsWeekdayNeedsSameMillisecond(hasLast: bool, today: Weekday, elapsedMs: nat)
    ensures IsEpisodeFreeDev(LabelFor(hasLast, DayNames[(today + 1) % 7]), today, elapsedMs) <==> elapsedMs == 0
  {
    var target: Weekday := (today + 1) % 7;
    assert DaysAgo(today, target) == 6;
    OtherWeekdayIsFreeDev(hasLast, target, today, elapsedMs);
  }

  /** `isEpisodeFree` in the test variant, on the parsed timestamp (None when `Date`
      yields NaN): the age in days, a real number, must lie in [0, 7]. */
  function IsEpisodeFreeTest(airDateMs: Option<int>, nowMs: int): bool {
    match airDateMs
    case None => false
    case Some(air) =>
      var ageInDays: real := (nowMs - air) as real / MsPerDay as real;
      0.0 <= ageInDays <= 7.0
  }

  /** The real-valued window is exactly an integer window on milliseconds. */
  lemma FreeTestWindowInMs(airDateMs: Option<int>, nowMs: int)
    ensures IsEpisodeFreeTest(airDateMs, nowMs) <==>
              airDateMs.Some? && 0 <= nowMs - airDateMs.value <= 7 * MsPerDay
  {
    if airDateMs.Some? {
      var diff := nowMs - airDateMs.value;
      var age: real := diff as real / MsPerDay as real;
      assert age * MsPerDay as real == diff as real;
    }
  }

  /** Future dates are never free in the test variant; a date exactly seven days old is. */
  lemma FreeTestBoundaries(nowMs: int)
    ensures !IsEpisodeFreeTest(Some(nowMs + 1), nowMs)
    ensures IsEpisodeFreeTest(Some(nowMs - 7 * MsPerDay), nowMs)
    ensures !IsEpisodeFreeTest(Some(nowMs - 7 * MsPerDay - 1), nowMs)
  {
    FreeTestWindowInMs(Some(nowMs + 1), nowMs);
    FreeTestWindowInMs(Some(nowMs - 7 * MsPerDay), nowMs);
    FreeTestWindowInMs(Some(nowMs - 7 * MsPerDay - 1), nowMs);
  }

  datatype Viewer = Anonymous | SignedIn

  /** The fields of a content detail record the gate reads. `recentAirDate` is None when
      the field is absent and Some(None) when `Date` cannot parse it. */
  datatype ContentRecord = ContentRecord(
    kind: String,
    subtype: String,
    recentAirDate: Option<Option<int>>,
    relativeAirDay: String,
    downloadUrl: String)

  /** What `getContentDetails` does with a record: hand it on to build a playable item,
      or raise. `DirectMedia` is the signed-cookie path for direct media URLs. */
  datatype Access =
    | Granted(data: ContentRecord)
    | DirectMedia
    | LoginRequired
    | Unavailable(reason: String)
    | UpstreamError

  function IsFreeTestRecord(data: ContentRecord, nowMs: int): bool {
    data.recentAirDate.Some? && IsEpisodeFreeTest(data.recentAirDate.value, nowMs)
  }

  /** The gate of `getContentDetails` in the test variant. `podcastRecord` is the second,
      signed-in fetch the source makes for podcasts; `secret` is `secretVariable === true`. */
  function ContentAccessTest(
    directMediaUrl: bool, viewer: Viewer, data: ContentRecord,
    podcastRecord: Fetched<ContentRecord>, secret: bool, nowMs: int): (r: Access)
    ensures directMediaUrl ==> (r == LoginRequired <==> viewer == Anonymous)
    ensures !directMediaUrl ==>
              (r == LoginRequired <==>
                 && (data.kind == "Audio" || data.kind == "Video")
                 && viewer == Anonymous && data.subtype != "Podcast"
                 && !IsFreeTestRecord(data, nowMs) && !secret)
    ensures r.Granted? && viewer == Anonymous && data.subtype != "Podcast" ==>
              r.data == data && (IsFreeTestRecord(data, nowMs) || secret)
    ensures r.Granted? ==> r.data.downloadUrl != ""
    ensures viewer == SignedIn && !directMediaUrl && r.Granted? ==> r.data == data
  {
    if directMediaUrl then
      if viewer == Anonymous then LoginRequired else DirectMedia
    else if data.kind != "Audio" && data.kind != "Video" then
      Unavailable("No support for " + data.kind + " content")
    else
      var checked :=
        if viewer == SignedIn then Got(data)
        else if data.subtype == "Podcast" then podcastRecord
        else if !IsFreeTestRecord(data, nowMs) && !secret then Failed
        else Got(data);
      if viewer == Anonymous && data.subtype != "Podcast" && checked.Failed? then LoginRequired
      else if checked.Failed? then UpstreamError
      else if checked.value.downloadUrl == "" then Unavailable("No media URL found.")
      else Granted(checked.value)
  }

  /** Whether the dev variant treats a record as free: a missing label is not free. */
  function IsFreeDevRecord(data: ContentRecord, today: Weekday, elapsedMs: nat): bool {
    data.relativeAirDay != "" && IsEpisodeFreeDev(data.relativeAirDay, today, elapsedMs)
  }

  /** The gate of `getContentDetails` in the dev variant; it does not reject unknown
      content types and does not check the download URL. */
  function ContentAccessDev(
    viewer: Viewer, data: ContentRecord, podcastRecord: Fetched<ContentRecord>,
    secret: bool, today: Weekday, elapsedMs: nat): (r: Access)
    ensures r == LoginRequired <==>
              viewer == Anonymous && data.subtype != "Podcast" && !IsFreeDevRecord(data, today, elapsedMs) && !secret
    ensures r.Granted? || r == LoginRequired || r == UpstreamError
    ensures r.Granted? && viewer == Anonymous && data.subtype != "Podcast" ==>
              r.data == data && (IsFreeDevRecord(data, today, elapsedMs) || secret)
    ensures viewer == SignedIn ==> r == Granted(data)
  {
    if viewer.SignedIn? then Granted(data)
    else if data.subtype == "Podcast" then
      match podcastRecord
      case Failed => UpstreamError
      case Got(d) => Granted(d)
    else if !IsFreeDevRecord(data, today, elapsedMs) && !secret then LoginRequired
    else Granted(data)
  }

  /** The two windows disagree on an item exactly seven days old: the test variant lets it
      through, the dev variant (reading the same day as a weekday airLabel) does not. */
  lemma WindowsDisagreeAtSevenDays(today: Weekday, nowMs: int, elapsedMs: nat)
    ensures IsEpisodeFreeTest(Some(nowMs - 7 * MsPerDay), nowMs)
    ensures !IsEpisodeFreeDev(LabelFor(false, DayNames[today]), today, elapsedMs)
  {
    FreeTestBoundaries(nowMs);
    OwnWeekdayIsNotFreeDev(false, today, elapsedMs);
  }
}
