/** The episode description the dev and casting variants build from an episode's
    details: the summary followed by optional blocks in a fixed order. */
module Description {
  import opened Text

  datatype Author = Author(role: String, name: String)

  /** The inputs of `formatDescription`; absent strings are empty and absent lists are [].
      The casting variant has no devotional and ignores that field. */
  datatype Details = Details(
    summary: String, authors: seq<Author>, characters: seq<String>,
    airDateRaw: String, bibleVerse: String, devotional: String)

  /** The calendar date of an ISO timestamp: the text before the first 'T', with every
      '-' turned into '/'. */
  function AirDateOnly(raw: String): (r: String)
    ensures |r| <= |raw| && 'T' !in r && '-' !in r
    ensures forall i :: 0 <= i < |r| ==> r[i] == (if raw[i] == '-' then '/' else raw[i])
    ensures |r| < |raw| ==> raw[|r|] == 'T'
  {
    ReplaceChar(Split(raw, 'T')[0], '-', '/')
  }

  function AuthorLine(a: Author): String {
    a.role + ": " + a.name
  }

  function AuthorLines(authors: seq<Author>): (lines: seq<String>)
    ensures |lines| == |authors|
    ensures forall i :: 0 <= i < |authors| ==> lines[i] == AuthorLine(authors[i])
  {
    seq(|authors|, i requires 0 <= i < |authors| => AuthorLine(authors[i]))
  }

  const AirDateHeading: String := "\n\nAir Date: "
  const CharactersHeading: String := "\n\nCharacters:\n"
  const BibleVerseHeading: String := "\n\nBible Verse: "
  const DevotionalHeading: String := "\n\nDevotional: "

  /** Each block is empty exactly when its detail is absent, and otherwise is its
      heading followed by the detail's text. */
  function AirDateBlock(d: Details): (b: String)
    ensures b == "" <==> d.airDateRaw == ""
    ensures b != "" ==> StartsWith(b, AirDateHeading) && b[|AirDateHeading|..] == AirDateOnly(d.airDateRaw)
  {
    if d.airDateRaw != "" then AirDateHeading + AirDateOnly(d.airDateRaw) else ""
  }

  function AuthorsBlock(d: Details): (b: String)
    ensures b == "" <==> d.authors == []
    ensures b != "" ==> StartsWith(b, "\n\n") && b[2..] == Join(AuthorLines(d.authors), "\n")
  {
    if |d.authors| > 0 then "\n\n" + Join(AuthorLines(d.authors), "\n") else ""
  }

  function CharactersBlock(d: Details): (b: String)
    ensures b == "" <==> d.characters == []
    ensures b != "" ==> StartsWith(b, CharactersHeading) && b[|CharactersHeading|..] == Join(d.characters, "\n")
  {
    if |d.characters| > 0 then CharactersHeading + Join(d.characters, "\n") else ""
  }

  function BibleVerseBlock(d: Details): (b: String)
    ensures b == "" <==> d.bibleVerse == ""
    ensures b != "" ==> StartsWith(b, BibleVerseHeading) && b[|BibleVerseHeading|..] == d.bibleVerse
  {
    if d.bibleVerse != "" then BibleVerseHeading + d.bibleVerse else ""
  }

  function DevotionalBlock(d: Details): (b: String)
    ensures b == "" <==> d.devotional == ""
    ensures b != "" ==> StartsWith(b, DevotionalHeading) && b[|DevotionalHeading|..] == d.devotional
  {
    if d.devotional != "" then DevotionalHeading + d.devotional else ""
  }

  /** `formatDescription`: the summary, then the air date, authors, characters and Bible
      verse blocks in that order, each present only when its detail is; the dev variant
      appends the devotional block, the casting variant does not. */
  function FormatDescription(d: Details, withDevotional: bool): (out: String)
    ensures out == d.summary + AirDateBlock(d) + AuthorsBlock(d) + CharactersBlock(d) + BibleVerseBlock(d)
                   + (if withDevotional then DevotionalBlock(d) else "")
    ensures StartsWith(out, d.summary + AirDateBlock(d))
    ensures |out| >= |d.summary| + |AirDateBlock(d)| + |BibleVerseBlock(d)|
  {
    var head := d.summary + AirDateBlock(d);
    var body := head + AuthorsBlock(d) + CharactersBlock(d) + BibleVerseBlock(d);
    var out := if withDevotional then body + DevotionalBlock(d) else body;
    assert StartsWith(out, head) by {
      StartsWithConcat(head, AuthorsBlock(d));
      StartsWithAppend(head + AuthorsBlock(d), head, CharactersBlock(d));
      StartsWithAppend(head + AuthorsBlock(d) + CharactersBlock(d), head, BibleVerseBlock(d));
      StartsWithAppend(body, head, DevotionalBlock(d));
    }
    out
  }

  /** With no optional details the description is the summary alone. */
  lemma OnlySummary(d: Details, withDevotional: bool)
    requires d.airDateRaw == "" && d.authors == [] && d.characters == [] && d.bibleVerse == "" && d.devotional == ""
    ensures FormatDescription(d, withDevotional) == d.summary
  {
  }

  /** The dev description is the casting description plus the devotional block. */
  lemma DevExtendsCast(d: Details)
    ensures FormatDescription(d, true) == FormatDescription(d, false) + DevotionalBlock(d)
    ensures d.devotional == "" ==> FormatDescription(d, true) == FormatDescription(d, false)
  {
  }

  /** The description opens with the summary, and the air-date block follows it
      exactly when there is an air date. */
  lemma AirDateFollowsSummary(d: Details, withDevotional: bool)
    ensures StartsWith(FormatDescription(d, withDevotional), d.summary)
    ensures d.airDateRaw != "" ==>
              StartsWith(FormatDescription(d, withDevotional)[|d.summary|..], AirDateHeading + AirDateOnly(d.airDateRaw))
  {
    StartsWithSplit(FormatDescription(d, withDevotional), d.summary, AirDateBlock(d));
  }

  /** The character lines of the characters block split back into the names, provided
      no name spans lines. */
  lemma CharactersRecoverable(d: Details)
    requires |d.characters| > 0
    requires forall k :: 0 <= k < |d.characters| ==> '\n' !in d.characters[k]
    ensures var block := CharactersBlock(d);
            && StartsWith(block, CharactersHeading)
            && Split(block[|CharactersHeading|..], '\n') == d.characters
  {
    var block := CharactersBlock(d);
    assert block[|CharactersHeading|..] == Join(d.characters, "\n");
    SplitJoin(d.characters, '\n');
  }

  /** An ISO timestamp's date part comes out with slashes. */
  lemma AirDateOfTimestamp(date: String, time: String)
    requires 'T' !in date
    ensures AirDateOnly(date + "T" + time) == ReplaceChar(date, '-', '/')
  {
    var raw := date + "T" + time;
    assert raw[|date|] == 'T';
    var i := CharIndex(raw, 'T');
    assert i == |date|;
    assert raw[..i] == date;
    assert Split(raw, 'T')[0] == date;
  }
}
