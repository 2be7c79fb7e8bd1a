/** The upstream records the core reads, reduced to the fields it uses, and the
    requests it can issue. A field that is absent upstream is the empty string or
    the empty list here, which is how the plugin's `||` and `&&` tests treat it. */
module Upstream {
  import opened Text

  /** A content entry as it appears in album lists, recommendation lists and
      neighbour links: `id`, `name`, `short_name`, `type` and `subtype`. */
  datatype ContentRef = ContentRef(id: String, name: String, shortName: String, kind: String, subtype: String)

  /** A content grouping ("album") returned by the grouping search. */
  datatype Album = Album(id: String, name: String, contentList: seq<ContentRef>)

  /** One hit of the badge search: `resultObjects[0].results[i]`. */
  datatype BadgeHit = BadgeHit(id: String)

  /** The fields of a content detail record that the comment resolvers read. */
  datatype ContentInfo = ContentInfo(shortName: String, enableCommenting: bool, disableCommentPosting: bool)

  /** The requests the comment resolvers may issue, in the order they issue them. */
  datatype Lookup =
    | AlbumSearch
    | ContentFetch(contentId: String)
    | BadgeSearch(term: String)
    | CommentSearch(relatedToId: String, pageNumber: int, pageSize: int)

  predicate IsPlayable(c: ContentRef) {
    c.kind == "Audio" || c.kind == "Video"
  }

  const ContentUrlPrefix: String := "https://app.adventuresinodyssey.com/content/"
  const ContentGroupUrlPrefix: String := "https://app.adventuresinodyssey.com/contentGroup/"

  /** The marker that flags a badge-backed album. The source compares against the text its
      file holds, the two characters U+00C2 U+00BD ("Â½", the UTF-8 bytes of "½" read as
      Latin-1), and so does this model. */
  const HalfMarker: String := "\U{C2}\U{BD}"
}
