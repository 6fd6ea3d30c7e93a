/**
 * The search box of the blog listing (`filteredPosts`): a post is kept when
 * the lower-cased search term occurs in its lower-cased title or in its
 * lower-cased excerpt, and the kept posts stay in the order they were fetched.
 */
module BlogSearch {
  import opened JsText
  import opened BlogPosts

  /** The `matchesSearch` test of one post: the folded term occurs somewhere
      in the folded title or the folded excerpt. */
  predicate Matches(p: Post, term: string)
    ensures Matches(p, term) <==>
      (exists i :: OccursAt(Lower(p.title), Lower(term), i)) ||
      (exists i :: OccursAt(Lower(p.excerpt), Lower(term), i))
  {
    ContainsSpec(Lower(p.title), Lower(term));
    ContainsSpec(Lower(p.excerpt), Lower(term));
    Contains(Lower(p.title), Lower(term)) || Contains(Lower(p.excerpt), Lower(term))
  }

  /** `posts.filter(post => matchesSearch)`: no longer than the posts, and
      every post it keeps matches. */
  function Filter(posts: seq<Post>, term: string): (r: seq<Post>)
    ensures |r| <= |posts|
    ensures forall i :: 0 <= i < |r| ==> Matches(r[i], term)
  {
    if posts == [] then []
    else (if Matches(posts[0], term) then [posts[0]] else []) + Filter(posts[1..], term)
  }

  /** `a` is obtained from `b` by deleting elements, without reordering. */
  predicate IsSubsequence<T(==)>(a: seq<T>, b: seq<T>)
    decreases |b|
  {
    a == [] || (b != [] && ((a[0] == b[0] && IsSubsequence(a[1..], b[1..])) || IsSubsequence(a, b[1..])))
  }

  /** The filtered list is a subsequence of the posts: original relative order,
      nothing added or repeated. */
  lemma {:induction false} FilterIsSubsequence(posts: seq<Post>, term: string)
    ensures IsSubsequence(Filter(posts, term), posts)
  {
    if posts != [] {
      FilterIsSubsequence(posts[1..], term);
      if Matches(posts[0], term) {
        assert Filter(posts, term)[1..] == Filter(posts[1..], term);
      } else {
        assert Filter(posts, term) == Filter(posts[1..], term);
      }
    }
  }

  /** Each post occurs in the result as often as in the input when it matches,
      and not at all otherwise. */
  lemma {:induction false} FilterCounts(posts: seq<Post>, term: string, p: Post)
    ensures multiset(Filter(posts, term))[p] == if Matches(p, term) then multiset(posts)[p] else 0
  {
    if posts != [] {
      FilterCounts(posts[1..], term, p);
      assert posts == [posts[0]] + posts[1..];
      assert multiset(posts) == multiset([posts[0]]) + multiset(posts[1..]);
    }
  }

  /** A post is in the result if and only if it is one of the posts and the
      lower-cased term occurs in its lower-cased title or excerpt. */
  lemma FilterKeepsExactlyMatches(posts: seq<Post>, term: string, p: Post)
    ensures p in Filter(posts, term) <==>
      p in posts && (Contains(Lower(p.title), Lower(term)) || Contains(Lower(p.excerpt), Lower(term)))
  {
    FilterCounts(posts, term, p);
    assert p in Filter(posts, term) <==> multiset(Filter(posts, term))[p] > 0;
    assert p in posts <==> multiset(posts)[p] > 0;
  }

  /** The result is empty exactly when no post matches the term. */
  lemma FilterEmptyIffNoMatch(posts: seq<Post>, term: string)
    ensures Filter(posts, term) == [] <==> forall p :: p in posts ==> !Matches(p, term)
  {
    if Filter(posts, term) != [] {
      FilterKeepsExactlyMatches(posts, term, Filter(posts, term)[0]);
    } else {
      forall p | p in posts
        ensures !Matches(p, term)
      {
        FilterKeepsExactlyMatches(posts, term, p);
      }
    }
  }

  /** A post whose title and excerpt hold the term's first letter `c` in
      neither case does not match. */
  lemma NoMatchWithoutFirstLetter(p: Post, term: string, c: char)
    requires 'a' <= c <= 'z' && |term| > 0 && LowerChar(term[0]) == c
    requires c !in p.title && (c as int - 32) as char !in p.title
    requires c !in p.excerpt && (c as int - 32) as char !in p.excerpt
    ensures !Matches(p, term)
  {
    LowerAvoids(p.title, c);
    LowerAvoids(p.excerpt, c);
    NotContainsMissingChar(Lower(p.title), Lower(term));
    NotContainsMissingChar(Lower(p.excerpt), Lower(term));
  }

  /** An empty search term keeps every post. */
  lemma {:induction false} FilterEmptyTerm(posts: seq<Post>)
    ensures Filter(posts, "") == posts
  {
    if posts != [] {
      assert Lower("") == "";
      ContainsEmpty(Lower(posts[0].title));
      FilterEmptyTerm(posts[1..]);
    }
  }

  /** Filtering the filtered list again with the same term changes nothing. */
  lemma {:induction false} FilterIdempotent(posts: seq<Post>, term: string)
    ensures Filter(Filter(posts, term), term) == Filter(posts, term)
  {
    if posts != [] {
      var rest := Filter(posts[1..], term);
      FilterIdempotent(posts[1..], term);
      if Matches(posts[0], term) {
        var kept := [posts[0]] + rest;
        assert Filter(posts, term) == kept;
        assert kept[1..] == rest;
        assert Filter(kept, term) == [posts[0]] + Filter(rest, term);
      } else {
        assert Filter(posts, term) == rest;
      }
    }
  }

  /** Two terms that fold to the same lower-case string select the same posts. */
  lemma {:induction false} FilterSameFolding(posts: seq<Post>, t1: string, t2: string)
    requires Lower(t1) == Lower(t2)
    ensures Filter(posts, t1) == Filter(posts, t2)
  {
    if posts != [] {
      FilterSameFolding(posts[1..], t1, t2);
    }
  }

  /** The letter case of the term does not matter: searching for a term and
      for its lower-cased form give the same list. */
  lemma FilterIgnoresTermCase(posts: seq<Post>, term: string)
    ensures Filter(posts, Lower(term)) == Filter(posts, term)
  {
    LowerIdempotent(term);
    FilterSameFolding(posts, Lower(term), term);
  }

  /** Typing more characters only narrows the result: the posts found for
      `t + u` are those found for `t` that also match `t + u`. */
  lemma {:induction false} FilterNarrows(posts: seq<Post>, t: string, u: string)
    ensures Filter(posts, t + u) == Filter(Filter(posts, t), t + u)
    ensures IsSubsequence(Filter(posts, t + u), Filter(posts, t))
  {
    if posts != [] {
      var p := posts[0];
      var narrow := Filter(posts[1..], t + u);
      var wide := Filter(posts[1..], t);
      FilterNarrows(posts[1..], t, u);
      if Matches(p, t) {
        var kept := [p] + wide;
        assert Filter(posts, t) == kept;
        assert kept[1..] == wide;
        if Matches(p, t + u) {
          assert Filter(kept, t + u) == [p] + Filter(wide, t + u);
        } else {
          assert Filter(kept, t + u) == Filter(wide, t + u);
        }
      } else {
        assert Filter(posts, t) == wide;
        if Matches(p, t + u) {
          LowerConcat(t, u);
          if Contains(Lower(p.title), Lower(t) + Lower(u)) {
            ContainsPrefixOfNeedle(Lower(p.title), Lower(t), Lower(u));
          } else {
            ContainsPrefixOfNeedle(Lower(p.excerpt), Lower(t), Lower(u));
          }
          assert false;
        }
        assert Filter(posts, t + u) == narrow;
      }
    }
    FilterIsSubsequence(Filter(posts, t), t + u);
  }
}
