# Blog listing of a portfolio site, in Dafny

This project models the blog listing page of a React portfolio site
(`src/components/Blog/index.jsx`). The page loads every document of the
`blogPosts` collection from a document store and turns each document into a
record. It keeps the records in view state together with a loading flag, an
error message and the search box text. It shows the records as cards that
the search box filters.

The model has five modules:

- `JsText` (`js_text.dfy`) models the three JavaScript string builtins the
  page relies on. `toLowerCase` is restricted to ASCII letters. `includes` is
  a substring test, proved equal to "occurs at some index". `trim` removes
  ECMAScript white space and line terminators, and is proved to strip exactly
  the trimmable characters at both ends.
- `BlogPosts` (`blog_posts.dfy`) holds the raw documents, the records and the
  mapping `snapshot.docs.map(...)`, with its three-way date coercion. Dates
  are opaque: a normalised date records whether the store timestamp's
  `toDate()` produced it or `new Date(raw)` did, and from what.
- `BlogSearch` (`blog_search.dfy`) holds the `filteredPosts` predicate and
  its laws. The result is a subsequence of the posts and keeps exactly the
  matching posts, with their multiplicities. An empty term keeps everything.
  Filtering is idempotent and ignores the letter case of the term. Typing
  more characters only narrows the result.
- `BlogCards` (`blog_cards.dfy`) holds the excerpt truncation and the content
  of one card.
- `BlogView` (`blog_view.dfy`) holds the page's rendering for a view state:
  the error banner, the loading placeholders, the cards or the no-match
  message, and the counter. The class `BlogPage` holds the four state
  variables. Its methods model `fetchPosts` (start, success, failure), and
  one more models typing in the search box. The store query is not modelled:
  its outcome is a parameter, `Fetched(docs)` or `FetchFailed`.

Four behaviours of the code are easy to misread; the model follows the code:

- A post's `title` and `excerpt` are required strings. The search lower-cases
  the title unguarded, so a missing title makes the filter throw. The excerpt
  is lower-cased only when the title does not contain the term, so a missing
  excerpt throws only then. The model does not treat a missing field as empty
  text.
- The record's `id` is the store's document id only when the document stores
  no `id` field of its own. The record literal is
  `{ id: docSnap.id, ...data, date }`, and the spread comes after the store id.
- A raw date that is truthy but not a store timestamp becomes a present
  date (`Parsed`), whether or not JavaScript could parse it. `new Date`
  yields an "Invalid Date" object, which is still truthy.
- When the fetch fails, the page shows the error banner and also the
  "No blog posts match your filters." message. The posts are still empty at
  that point, and the body only tests the filtered list's length.

## Model

| member | source | states |
|---|---|---|
| `JsText.LowerChar` | src/components/Blog/index.jsx:59-60 | folding one character never yields an ASCII capital, keeps every non-capital, and maps a capital to the letter 32 code points higher |
| `JsText.Lower` | src/components/Blog/index.jsx:59-60 | `toLowerCase`: the result has the same length and no ASCII capital; every other character stays where it was, and each capital becomes the letter 32 code points higher |
| `JsText.LowerIdempotent` | src/components/Blog/index.jsx:59-60 | lower-casing twice equals lower-casing once |
| `JsText.LowerConcat` | src/components/Blog/index.jsx:59-60 | lower-casing distributes over concatenation |
| `JsText.LowerIgnoresCase` | src/components/Blog/index.jsx:59-60 | two strings that differ only in ASCII letter case lower-case to the same string |
| `JsText.LowerAvoids` | src/components/Blog/index.jsx:59-60 | a letter absent from a string in both cases is absent from its lower-cased form |
| `JsText.Contains` | src/components/Blog/index.jsx:59-60 | `includes`: a string never includes a needle longer than itself; `ContainsSpec` gives the full meaning |
| `JsText.ContainsSpec` | src/components/Blog/index.jsx:59-60 | `includes` holds exactly when the needle occurs at some index of the string |
| `JsText.ContainsEmpty` | src/components/Blog/index.jsx:59-60 | every string includes the empty string |
| `JsText.ContainsPrefixOfNeedle` | src/components/Blog/index.jsx:59-60 | a string that includes `a + b` includes `a` |
| `JsText.NotContainsMissingChar` | src/components/Blog/index.jsx:59-60 | a needle whose first character is absent from the string is not included |
| `JsText.TrimStart` | src/components/Blog/index.jsx:145 | the result is a suffix, everything dropped is trimmable, and the result does not start with a trimmable character |
| `JsText.TrimEnd` | src/components/Blog/index.jsx:145 | the result is a prefix, everything dropped is trimmable, and the result does not end with a trimmable character |
| `JsText.Trim` | src/components/Blog/index.jsx:145 | `trim`: the result is never longer than the input and neither starts nor ends with a trimmable character; `TrimSpec` says which slice it is |
| `JsText.TrimSpec` | src/components/Blog/index.jsx:145 | `trim` returns a slice of its input with only trimmable characters removed on each side, and the slice has no trimmable character at either end |
| `JsText.TrimKeeps` | src/components/Blog/index.jsx:145 | a string with no trimmable character at either end is returned unchanged |
| `JsText.TrimIdempotent` | src/components/Blog/index.jsx:145 | trimming twice equals trimming once |
| `BlogPosts.CoerceDate` | src/components/Blog/index.jsx:41 | the coerced date is present exactly when the raw value is truthy, and it comes from `toDate()` exactly when the raw value has that method |
| `BlogPosts.Normalize` | src/components/Blog/index.jsx:37-42 | a record takes the store id when the document stores no `id` and the stored `id` otherwise; its date is absent exactly when the raw value is falsy, and comes from `toDate()` exactly when the raw value has that method |
| `BlogPosts.NormalizeAll` | src/components/Blog/index.jsx:36-43 | `snapshot.docs.map(...)` yields exactly one record per document; `NormalizeAllOnePerDocument` and `NormalizedRecord` say which |
| `BlogPosts.NormalizeAllOnePerDocument` | src/components/Blog/index.jsx:36-43 | record i is the normalised document i, in query order, whatever its date holds |
| `BlogPosts.NormalizedRecord` | src/components/Blog/index.jsx:36-43 | record i takes the store id unless document i stores its own `id`, and copies every other field. Its date is the converted timestamp, else the parsed truthy value, else absent. It is absent exactly when the raw value is falsy |
| `BlogSearch.Matches` | src/components/Blog/index.jsx:58-60 | `matchesSearch` holds exactly when the lower-cased term occurs at some index of the lower-cased title or of the lower-cased excerpt |
| `BlogSearch.Filter` | src/components/Blog/index.jsx:56-63 | `filteredPosts` is never longer than the posts and every post in it matches the term; `FilterCounts` and `FilterIsSubsequence` pin it down completely |
| `BlogSearch.FilterIsSubsequence` | src/components/Blog/index.jsx:56-63 | the filtered list is a subsequence of the posts, in their original order |
| `BlogSearch.FilterCounts` | src/components/Blog/index.jsx:57-62 | each post appears in the result as often as in the input if it matches, and not at all otherwise; filtering never duplicates |
| `BlogSearch.FilterKeepsExactlyMatches` | src/components/Blog/index.jsx:58-60 | a post is in the result if and only if it is one of the posts and the lower-cased term occurs in its lower-cased title or lower-cased excerpt |
| `BlogSearch.FilterEmptyIffNoMatch` | src/components/Blog/index.jsx:56-63 | the result is empty exactly when no post matches |
| `BlogSearch.NoMatchWithoutFirstLetter` | src/components/Blog/index.jsx:58-60 | a post whose title and excerpt lack the term's first letter in both cases does not match |
| `BlogSearch.FilterEmptyTerm` | src/components/Blog/index.jsx:57-62 | the empty search term keeps every post: the result equals the posts |
| `BlogSearch.FilterIdempotent` | src/components/Blog/index.jsx:57-62 | filtering the filtered list again with the same term changes nothing |
| `BlogSearch.FilterSameFolding` | src/components/Blog/index.jsx:57-62 | two terms with the same lower-cased form give identical results |
| `BlogSearch.FilterIgnoresTermCase` | src/components/Blog/index.jsx:57-62 | searching for a term and for its lower-cased form gives identical results |
| `BlogSearch.FilterNarrows` | src/components/Blog/index.jsx:56-63 | the result for `t + u` is the result for `t` filtered again by `t + u`, so it is a subsequence of the result for `t` |
| `BlogCards.TruncateExcerpt` | src/components/Blog/index.jsx:144-146 | the shown excerpt is never longer than 120 characters. An excerpt of at most 120 characters, the empty one included, is shown unchanged. A longer one is shortened |
| `BlogCards.TruncatedShape` | src/components/Blog/index.jsx:144-146 | a shortened excerpt is the trimmed slice of the first 117 characters followed by `...` |
| `BlogCards.TruncatedKeepsPrefix` | src/components/Blog/index.jsx:144-146 | a long excerpt whose 1st and 117th characters are not white space is shown as its first 117 characters followed by `...` |
| `BlogCards.HasImage` | src/components/Blog/index.jsx:147 | `Boolean(article.image)`: an image is shown exactly when the record has a non-empty image URL |
| `BlogCards.DateLabelOf` | src/components/Blog/index.jsx:170 | the date line shows the record's own date, and reads "Unscheduled" exactly when the record has none |
| `BlogCards.CardOf` | src/components/Blog/index.jsx:143-181 | a card carries the post's id as key, its title and slug, the truncated excerpt (`TruncateExcerpt`, so at most 120 characters), whether an image shows, and the date label, which reads "Unscheduled" exactly when the record has no date |
| `BlogView.CardsOf` | src/components/Blog/index.jsx:143-198 | one card per filtered post, in the same order: card i is the card of post i, so it shows that post's truncated excerpt |
| `BlogView.Render` | src/components/Blog/index.jsx:109-209 | the banner shows exactly when the error is non-empty, and shows the error text. Placeholders and "Loading articles..." show exactly while loading. Otherwise the counter reads N of M with N the number of filtered posts and M the number of posts; cards show exactly when some post matches the term, one card per filtered post in order, each excerpt at most 120 characters; and when no post matches the body is the message "No blog posts match your filters." |
| `BlogView.BlogPage.constructor` | src/components/Blog/index.jsx:24-27 | a new page has no posts, is loading, has no error and an empty search term |
| `BlogView.BlogPage.View` | src/components/Blog/index.jsx:109-209 | the page for the current state is the rendering of the four state variables: the banner shows the error exactly when it is non-empty, placeholders and "Loading articles..." while loading; afterwards the counter reads the number of matching posts of all posts, the cards of the filtered posts show when some post matches, and the no-match message when none does |
| `BlogView.BlogPage.SetSearchTerm` | src/components/Blog/index.jsx:96 | typing sets the search term and changes nothing else |
| `BlogView.BlogPage.Start` | src/components/Blog/index.jsx:31-33 | starting a fetch sets loading and clears the error; posts and search term are unchanged |
| `BlogView.BlogPage.Succeed` | src/components/Blog/index.jsx:36-50 | a resolved query replaces the posts by the normalised records, one per document, and ends loading; the error is untouched |
| `BlogView.BlogPage.Fail` | src/components/Blog/index.jsx:45-50 | a rejected query sets the fixed failure message and ends loading; the posts are unchanged |
| `BlogView.BlogPage.FetchPosts` | src/components/Blog/index.jsx:30-51 | loading always ends. On success the posts are the normalised documents and the error is empty. On failure the posts are unchanged and the error is the fixed message |
| `BlogView.FailedFirstLoad` | src/components/Blog/index.jsx:45-50 | a page whose first fetch fails shows the failure banner and the no-match message, and the counter reads 0 of 0 |
| `BlogView.SearchScenario` | src/components/Blog/index.jsx:56-63 | with two posts fetched in the order "Launch Day", "Retro", both cards show in that order. "ship" keeps only "Launch Day" and shows 1 of 2. "zzz" shows the no-match message with 0 of 2 |
| `BlogView.FilterPair` | src/components/Blog/index.jsx:57-62 | filtering a two-post list decides each post on its own and keeps their order |
| `BlogView.ScenarioLaunchMatches` | src/components/Blog/index.jsx:58-60 | the post "Launch Day" / "We shipped v1" matches "ship" and does not match "zzz" |
| `BlogView.ScenarioRetroMatchesNothing` | src/components/Blog/index.jsx:58-60 | the post "Retro" / "What we learned" matches neither "ship" nor "zzz" |

## Left out

- The store query (`collection`, `orderBy('date', 'desc')`, `getDocs`) is foreign network I/O. Its outcome is a parameter of `FetchPosts`, and the documents arrive in the order the store returns them. The store's own rule for documents that lack the ordered field is not modelled.
- The store timestamp's `toDate()`, JavaScript's `new Date(...)` and `toLocaleDateString()` are locale-dependent `Date` behaviour. A date is opaque: `Converted` or `Parsed(raw)`.
- `BlogPosts.CoerceDate`: raw date values are limited to missing, store timestamp, text and integer milliseconds. NaN, booleans and other objects are not modelled.
- `JsText.Lower`: case folding covers ASCII letters only. Full Unicode `toLowerCase` is not modelled.
- `BlogCards.TruncateExcerpt`: lengths and `slice` count Unicode characters. JavaScript counts UTF-16 code units, so text outside the Basic Multilingual Plane is cut at a different place.
- A post whose `title` is not a string makes the filter throw. One whose `excerpt` is not a string makes it throw only when the title does not contain the term, and the card's `article.excerpt &&` guard tolerates a missing excerpt. Both fields are modelled as required strings.
- A failure while mapping the snapshot would also land in the `catch`. The model only receives a complete outcome.
- `async`/`await`, `useEffect`/`useMemo` scheduling, React's batching of state updates and an unmount during the fetch are runtime lifecycle concerns and are not modelled.
- The `console.error` diagnostic on failure is I/O.
- Animation variants and timings, skeleton markup, JSX structure, the "Read Story" `Link` path built from the slug, and the read-time fallback are presentation. The counter is modelled as its two numbers, not as formatted decimal text.
- `src/components/Home/index.jsx` (static arrays and markup) and `src/App.js` (route wiring) contain no listing logic and are not part of this model.
