/**
 * The blog's records: the raw documents the store returns and the records
 * the listing keeps in its view state, with the mapping between them
 * (`snapshot.docs.map(...)` in `fetchPosts`).
 *
 * Dates are opaque: the store's `toDate()` and JavaScript's `new Date(...)`
 * are outside the model, so a normalised date only records which of the two
 * conversions produced it and from what.
 */
module BlogPosts {

  datatype Option<+T> = None | Some(value: T)

  /** What a document's `date` field can hold. */
  datatype RawDate =
    | Missing                                            // undefined or null
    | StoreTimestamp(seconds: int, nanoseconds: nat)     // a store Timestamp, which has toDate()
    | DateText(text: string)                             // a date-like string
    | DateNumber(millis: int)                            // milliseconds since the epoch

  /** A normalised date: converted by the timestamp's own `toDate()`, or
      parsed from a truthy raw value by `new Date(raw)`. */
  datatype Date =
    | Converted(seconds: int, nanoseconds: nat)
    | Parsed(raw: RawDate)

  /** `data.date?.toDate` is defined. */
  predicate HasToDate(d: RawDate) {
    d.StoreTimestamp?
  }

  /** JavaScript truthiness of the raw value: undefined, null, the empty
      string and the number 0 are falsy; every object is truthy. */
  predicate Truthy(d: RawDate) {
    match d
    case Missing => false
    case StoreTimestamp(_, _) => true
    case DateText(t) => t != ""
    case DateNumber(n) => n != 0
  }

  /** The fields of a stored document, as `docSnap.data()` returns them.
      `id` is present only when the document itself stores a field of that name. */
  datatype Fields = Fields(
    id: Option<string>,
    title: string,
    excerpt: string,
    slug: string,
    image: Option<string>,
    readTime: Option<string>,
    date: RawDate)

  /** One entry of the query snapshot: the store's document id and its data. */
  datatype Document = Document(storeId: string, data: Fields)

  /** A record of the listing. */
  datatype Post = Post(
    id: string,
    title: string,
    excerpt: string,
    slug: string,
    image: Option<string>,
    readTime: Option<string>,
    date: Option<Date>)

  /** The date coercion: `toDate()` when the value has it, else `new Date(v)`
      when the value is truthy, else `null`. */
  function CoerceDate(d: RawDate): (r: Option<Date>)
    ensures r.Some? <==> Truthy(d)
    ensures (r.Some? && r.value.Converted?) <==> HasToDate(d)
  {
    if HasToDate(d) then Some(Converted(d.seconds, d.nanoseconds))
    else if Truthy(d) then Some(Parsed(d))
    else None
  }

  /** `{ id: docSnap.id, ...data, date: ... }`: the spread comes after the
      store id, so a stored `id` field takes its place; every field is copied
      and `date` is replaced by its coercion. */
  function Normalize(doc: Document): (r: Post)
    ensures doc.data.id.None? ==> r.id == doc.storeId
    ensures doc.data.id.Some? ==> r.id == doc.data.id.value
    ensures r.date.None? <==> !Truthy(doc.data.date)
    ensures (r.date.Some? && r.date.value.Converted?) <==> HasToDate(doc.data.date)
  {
    var f := doc.data;
    Post(if f.id.Some? then f.id.value else doc.storeId,
         f.title, f.excerpt, f.slug, f.image, f.readTime, CoerceDate(f.date))
  }

  /** `snapshot.docs.map(...)`: one record per document. */
  function NormalizeAll(docs: seq<Document>): (r: seq<Post>)
    ensures |r| == |docs|
  {
    if docs == [] then [] else [Normalize(docs[0])] + NormalizeAll(docs[1..])
  }

  /** Exactly one record per document, in query order: no document is dropped,
      whatever its date holds. */
  lemma {:induction false} NormalizeAllOnePerDocument(docs: seq<Document>)
    ensures forall i :: 0 <= i < |docs| ==> NormalizeAll(docs)[i] == Normalize(docs[i])
  {
    if docs != [] {
      NormalizeAllOnePerDocument(docs[1..]);
    }
  }

  /** The record made from the i-th document: the store id unless the
      document stores its own `id`, every other field copied, and the date
      converted, parsed or absent; it is absent exactly when the raw value is
      falsy, so a missing or empty date never removes the record. */
  lemma NormalizedRecord(docs: seq<Document>, i: int)
    requires 0 <= i < |docs|
    ensures |NormalizeAll(docs)| == |docs|
    ensures var p, f := NormalizeAll(docs)[i], docs[i].data;
      && p.id == (if f.id.Some? then f.id.value else docs[i].storeId)
      && p.title == f.title && p.excerpt == f.excerpt && p.slug == f.slug
      && p.image == f.image && p.readTime == f.readTime
      && (HasToDate(f.date) ==> p.date == Some(Converted(f.date.seconds, f.date.nanoseconds)))
      && (!HasToDate(f.date) && Truthy(f.date) ==> p.date == Some(Parsed(f.date)))
      && (p.date.None? <==> !Truthy(f.date))
  {
    NormalizeAllOnePerDocument(docs);
  }
}
