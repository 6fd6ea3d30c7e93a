/**
 * One card of the listing: the excerpt shortened to fit the card, whether an
 * image is shown, and the date line.
 */
module BlogCards {
  import opened JsText
  import opened BlogPosts

  /** Longest excerpt shown unchanged. */
  const ExcerptLimit := 120
  /** Characters kept from a longer excerpt before trimming. */
  const KeptChars := 117
  const Ellipsis := "..."

  /** `truncatedExcerpt`: an excerpt longer than the limit becomes its first
      117 characters, trimmed, followed by an ellipsis; any other excerpt,
      the empty one included, is shown as it is. The shown text never exceeds
      the limit. */
  function TruncateExcerpt(e: string): (r: string)
    ensures |r| <= ExcerptLimit
    ensures |e| <= ExcerptLimit ==> r == e
    ensures |e| > ExcerptLimit ==> |r| < |e|
  {
    if e != "" && |e| > ExcerptLimit then Trim(e[..KeptChars]) + Ellipsis else e
  }

  /** A shortened excerpt ends with the ellipsis, and what comes before it is
      the first 117 characters with only trimmable characters removed from
      their two ends. */
  lemma TruncatedShape(e: string)
    requires |e| > ExcerptLimit
    ensures exists body, lo ::
      IsTrimmedSlice(body, e[..KeptChars], lo) && TruncateExcerpt(e) == body + Ellipsis
  {
    TrimSpec(e[..KeptChars]);
  }

  /** A long excerpt whose first and 117th characters are not white space is
      shown as exactly its first 117 characters and the ellipsis. */
  lemma TruncatedKeepsPrefix(e: string)
    requires |e| > ExcerptLimit
    requires !IsTrimmable(e[0]) && !IsTrimmable(e[KeptChars - 1])
    ensures TruncateExcerpt(e) == e[..KeptChars] + Ellipsis
  {
    var kept := e[..KeptChars];
    assert kept[0] == e[0] && kept[|kept| - 1] == e[KeptChars - 1];
    TrimKeeps(kept);
    assert TruncateExcerpt(e) == Trim(kept) + Ellipsis;
  }

  /** The date line of a card: a record without a date reads "Unscheduled". */
  datatype DateLabel = Unscheduled | OnDate(date: Date)

  /** What one card shows of a post, and the slug its link goes to. */
  datatype Card = Card(
    key: string,
    title: string,
    excerpt: string,
    hasImage: bool,
    dateLabel: DateLabel,
    slug: string)

  /** `Boolean(article.image)`: an absent or empty URL shows no image. */
  predicate HasImage(p: Post)
    ensures HasImage(p) ==> p.image.Some?
    ensures p.image == Some("") ==> !HasImage(p)
    ensures p.image.Some? && p.image.value != "" ==> HasImage(p)
  {
    p.image.Some? && p.image.value != ""
  }

  /** `article.date ? ... : 'Unscheduled'`: the label carries the record's
      own date, and reads "Unscheduled" exactly when there is none. */
  function DateLabelOf(p: Post): (l: DateLabel)
    ensures l.Unscheduled? <==> p.date.None?
    ensures l.OnDate? ==> p.date == Some(l.date)
  {
    if p.date.Some? then OnDate(p.date.value) else Unscheduled
  }

  /** The card rendered for one post. */
  function CardOf(p: Post): (c: Card)
    ensures c.key == p.id && c.title == p.title && c.slug == p.slug
    ensures c.excerpt == TruncateExcerpt(p.excerpt) && |c.excerpt| <= ExcerptLimit
    ensures c.hasImage == HasImage(p) && c.dateLabel == DateLabelOf(p)
    ensures c.dateLabel.Unscheduled? <==> p.date.None?
  {
    Card(p.id, p.title, TruncateExcerpt(p.excerpt), HasImage(p), DateLabelOf(p), p.slug)
  }
}
