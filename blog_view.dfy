/**
 * The blog listing's view state (`posts`, `loading`, `error`, `searchTerm`),
 * the fetch that fills it, and what the page shows for a given state. The
 * store query itself is outside the model: its outcome is an input.
 */
module BlogView {
  import opened JsText
  import opened BlogPosts
  import opened BlogSearch
  import opened BlogCards

  /** Skeleton cards shown while loading. */
  const PlaceholderCount := 3
  const FailureMessage := "Failed to load blog posts. Please try again later."
  const NoMatchMessage := "No blog posts match your filters."

  /** What `getDocs` produced: the snapshot's documents, or a rejection. */
  datatype FetchOutcome = Fetched(docs: seq<Document>) | FetchFailed

  /** The main area of the listing. */
  datatype Body =
    | Placeholders(count: nat)
    | Cards(cards: seq<Card>)
    | NoMatch(message: string)

  /** The line under the listing: "Loading articles..." or "Showing N of M blogs". */
  datatype Counter = LoadingArticles | Showing(shown: nat, total: nat)

  /** Everything the page shows that depends on the view state. */
  datatype Screen = Screen(banner: Option<string>, body: Body, counter: Counter)

  /** `filteredPosts.map(article => ...)`: one card per post, in order, keyed
      by the post's id and showing its title and a bounded excerpt. */
  function CardsOf(posts: seq<Post>): (cards: seq<Card>)
    ensures |cards| == |posts|
    ensures forall i :: 0 <= i < |posts| ==> cards[i] == CardOf(posts[i])
    ensures forall i :: 0 <= i < |posts| ==>
      cards[i].key == posts[i].id && cards[i].title == posts[i].title
      && |cards[i].excerpt| <= ExcerptLimit
  {
    seq(|posts|, i requires 0 <= i < |posts| => CardOf(posts[i]))
  }

  /** The page for one view state: the error banner whenever `error` is
      non-empty; placeholders while loading; otherwise one card per filtered
      post when some post matches, else the no-match message; and the counter. */
  function Render(posts: seq<Post>, loading: bool, error: string, term: string): (s: Screen)
    ensures s.banner.Some? <==> error != ""
    ensures s.banner.Some? ==> s.banner.value == error
    ensures loading <==> s.body.Placeholders?
    ensures loading ==> s.body.count == PlaceholderCount && s.counter == LoadingArticles
    ensures !loading ==> (s.body.Cards? <==> exists p :: p in posts && Matches(p, term))
    ensures !loading ==> s.counter == Showing(|Filter(posts, term)|, |posts|)
    ensures !loading ==> s.counter.Showing? && s.counter.shown <= s.counter.total
    ensures !loading && Filter(posts, term) == [] ==> s.body == NoMatch(NoMatchMessage)
    ensures s.body.Cards? ==> |s.body.cards| == |Filter(posts, term)| == s.counter.shown
    ensures s.body.Cards? ==> forall i :: 0 <= i < |s.body.cards| ==>
      s.body.cards[i] == CardOf(Filter(posts, term)[i]) && |s.body.cards[i].excerpt| <= ExcerptLimit
  {
    var filtered := Filter(posts, term);
    FilterIsSubsequence(posts, term);
    FilterEmptyIffNoMatch(posts, term);
    Screen(
      if error != "" then Some(error) else None,
      if loading then Placeholders(PlaceholderCount)
      else if |filtered| > 0 then Cards(CardsOf(filtered))
      else NoMatch(NoMatchMessage),
      if loading then LoadingArticles else Showing(|filtered|, |posts|))
  }

  /** The `Blog` component's state. */
  class BlogPage {
    var posts: seq<Post>
    var loading: bool
    var error: string
    var searchTerm: string

    /** Mounting: no posts, loading, no error, empty search box. */
    constructor ()
      ensures posts == [] && loading && error == "" && searchTerm == ""
    {
      posts := [];
      loading := true;
      error := "";
      searchTerm := "";
    }

    /** What the page currently shows: the banner holds the error, and once
        loading is over the counter reports the matching posts out of all. */
    function View(): (s: Screen)
      reads this
      ensures s == Render(posts, loading, error, searchTerm)
      ensures s.banner.Some? <==> error != ""
      ensures s.banner.Some? ==> s.banner.value == error
      ensures loading ==> s.body.Placeholders? && s.counter == LoadingArticles
      ensures !loading ==> s.counter == Showing(|Filter(posts, searchTerm)|, |posts|)
      ensures !loading ==> (s.body.Cards? <==> exists p :: p in posts && Matches(p, searchTerm))
      ensures !loading && Filter(posts, searchTerm) == [] ==> s.body == NoMatch(NoMatchMessage)
      ensures s.body.Cards? ==> s.body.cards == CardsOf(Filter(posts, searchTerm))
    {
      Render(posts, loading, error, searchTerm)
    }

    /** Typing in the search box. */
    method SetSearchTerm(term: string)
      modifies this
      ensures searchTerm == term
      ensures posts == old(posts) && loading == old(loading) && error == old(error)
    {
      searchTerm := term;
    }

    /** Start of the fetch: loading, and any earlier error cleared. */
    method Start()
      modifies this
      ensures loading && error == ""
      ensures posts == old(posts) && searchTerm == old(searchTerm)
    {
      loading := true;
      error := "";
    }

    /** The query resolved: the normalised records replace the posts, and
        loading ends. */
    method Succeed(docs: seq<Document>)
      modifies this
      ensures posts == NormalizeAll(docs) && |posts| == |docs|
      ensures !loading
      ensures error == old(error) && searchTerm == old(searchTerm)
    {
      posts := NormalizeAll(docs);
      NormalizeAllOnePerDocument(docs);
      loading := false;
    }

    /** The query rejected: the posts stay, the fixed message is set, and
        loading ends. */
    method Fail()
      modifies this
      ensures error == FailureMessage && !loading
      ensures posts == old(posts) && searchTerm == old(searchTerm)
    {
      error := FailureMessage;
      loading := false;
    }

    /** `fetchPosts`: start, then settle on the outcome; loading always ends,
        the error is empty after a success, and the posts change only then. */
    method FetchPosts(outcome: FetchOutcome)
      modifies this
      ensures !loading && searchTerm == old(searchTerm)
      ensures outcome.Fetched? ==> posts == NormalizeAll(outcome.docs) && error == ""
      ensures outcome.FetchFailed? ==> posts == old(posts) && error == FailureMessage
    {
      Start();
      match outcome
      case Fetched(docs) => Succeed(docs);
      case FetchFailed => Fail();
    }
  }

  /** A page whose first fetch fails shows the banner, no card but the
      no-match message, and "Showing 0 of 0 blogs". */
  method FailedFirstLoad() returns (s: Screen)
    ensures s.banner == Some(FailureMessage)
    ensures s.body == NoMatch(NoMatchMessage)
    ensures s.counter == Showing(0, 0)
  {
    var page := new BlogPage();
    page.FetchPosts(FetchFailed);
    s := page.View();
  }

  /** Two posts fetched newest first, "Launch Day" then "Retro": both are
      shown in that order; "ship" keeps only "Launch Day"; "zzz" keeps none,
      and the counter still reports both fetched posts. */
  method SearchScenario() returns (all: Screen, ship: Screen, none: Screen)
    ensures all.body.Cards? && |all.body.cards| == 2
    ensures all.body.cards[0].title == "Launch Day" && all.body.cards[1].title == "Retro"
    ensures ship.body.Cards? && |ship.body.cards| == 1 && ship.body.cards[0].title == "Launch Day"
    ensures ship.counter == Showing(1, 2)
    ensures none.body == NoMatch(NoMatchMessage) && none.counter == Showing(0, 2)
  {
    var launch := Fields(None, "Launch Day", "We shipped v1", "launch-day", None, None, StoreTimestamp(1700000000, 0));
    var retro := Fields(None, "Retro", "What we learned", "retro", None, None, StoreTimestamp(1600000000, 0));
    var docs := [Document("launch", launch), Document("retro", retro)];
    var page := new BlogPage();
    page.FetchPosts(Fetched(docs));
    var l := Post("launch", launch.title, launch.excerpt, launch.slug, None, None, Some(Converted(1700000000, 0)));
    var r := Post("retro", retro.title, retro.excerpt, retro.slug, None, None, Some(Converted(1600000000, 0)));
    NormalizeAllOnePerDocument(docs);
    assert page.posts == [l, r];
    FilterEmptyTerm(page.posts);
    all := page.View();
    ScenarioLaunchMatches(l);
    ScenarioRetroMatchesNothing(r);
    FilterPair(l, r, "ship");
    FilterPair(l, r, "zzz");
    page.SetSearchTerm("ship");
    ship := page.View();
    page.SetSearchTerm("zzz");
    none := page.View();
  }

  /** Filtering a two-post list decides each post on its own. */
  lemma FilterPair(l: Post, r: Post, term: string)
    ensures Filter([l, r], term) ==
      (if Matches(l, term) then [l] else []) + (if Matches(r, term) then [r] else [])
  {
    assert [l, r][1..] == [r];
    assert [r][1..] == [];
    assert Filter([r], term) == (if Matches(r, term) then [r] else []) + Filter([], term);
  }

  /** The first scenario post has no `z` in either case. */
  lemma LaunchLacksZ()
    ensures 'z' !in "Launch Day" && 'Z' !in "Launch Day"
    ensures 'z' !in "We shipped v1" && 'Z' !in "We shipped v1"
  {
  }

  /** The second scenario post has no `s` in either case. */
  lemma RetroLacksS()
    ensures 's' !in "Retro" && 'S' !in "Retro"
    ensures 's' !in "What we learned" && 'S' !in "What we learned"
  {
  }

  /** The second scenario post has no `z` in either case. */
  lemma RetroLacksZ()
    ensures 'z' !in "Retro" && 'Z' !in "Retro"
    ensures 'z' !in "What we learned" && 'Z' !in "What we learned"
  {
  }

  /** "ship" occurs in the first scenario post's excerpt, and that post has no `z`. */
  lemma ScenarioLaunchMatches(l: Post)
    requires l.title == "Launch Day" && l.excerpt == "We shipped v1"
    ensures Matches(l, "ship") && !Matches(l, "zzz")
  {
    assert Lower(l.excerpt)[3..7] == Lower("ship");
    assert OccursAt(Lower(l.excerpt), Lower("ship"), 3);
    ContainsSpec(Lower(l.excerpt), Lower("ship"));
    LaunchLacksZ();
    NoMatchWithoutFirstLetter(l, "zzz", 'z');
  }

  /** The second scenario post has neither an `s` nor a `z`. */
  lemma ScenarioRetroMatchesNothing(r: Post)
    requires r.title == "Retro" && r.excerpt == "What we learned"
    ensures !Matches(r, "ship") && !Matches(r, "zzz")
  {
    RetroLacksS();
    NoMatchWithoutFirstLetter(r, "ship", 's');
    RetroLacksZ();
    NoMatchWithoutFirstLetter(r, "zzz", 'z');
  }
}
