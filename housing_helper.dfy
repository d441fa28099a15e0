/** The filter chain of `housing_helper.py` that reduces the scraped posts to the
    listings the user asked for: sellers with content, within the budget, and
    optionally only sublets or only non-sublets. */
module Housing {

  import opened Text
  import opened Seqs
  import opened Posts

  /** The test of the first filter: the post has content and is a seller's. */
  predicate Listing(p: Post) {
    p.content.Some? && p.seller
  }

  /** The test of the budget filter, `in_price_range(budget)`. */
  predicate Affordable(p: Post, budget: int) {
    p.price.Some? && InPriceRange(p, budget, 0)
  }

  /** The test of the sublet filter: `is_sublet()` gives the wanted answer. */
  predicate SubletAnswer(p: Post, wanted: bool) {
    p.content.Some? && IsSublet(p.content.value) == wanted
  }

  /** `[x for x in posts if x.content is not None and x.seller]`. */
  function KeepListings(posts: seq<Post>): (r: seq<Post>)
    ensures IsSubsequence(r, posts)
    ensures forall p :: p in r <==> p in posts && Listing(p)
    ensures forall p :: multiset(r)[p] == if Listing(p) then multiset(posts)[p] else 0
    decreases |posts|
  {
    if posts == [] then []
    else
      var rest := KeepListings(posts[1..]);
      var r := if Listing(posts[0]) then [posts[0]] + rest else rest;
      FilterStep(posts, rest, r, (p: Post) => Listing(p));
      r
  }

  /** `[x for x in posts if x.in_price_range(budget)]`; the comparison is made on
      every post, so every post must have a price. */
  function KeepAffordable(posts: seq<Post>, budget: int): (r: seq<Post>)
    requires forall p :: p in posts ==> p.price.Some?
    ensures IsSubsequence(r, posts)
    ensures forall p :: p in r <==> p in posts && Affordable(p, budget)
    ensures forall p :: multiset(r)[p] == if Affordable(p, budget) then multiset(posts)[p] else 0
    decreases |posts|
  {
    if posts == [] then []
    else
      var rest := KeepAffordable(posts[1..], budget);
      var r := if InPriceRange(posts[0], budget, 0) then [posts[0]] + rest else rest;
      FilterStep(posts, rest, r, (p: Post) => Affordable(p, budget));
      r
  }

  /** `[x for x in posts if x.is_sublet()]` when `wanted`, and
      `[x for x in posts if not x.is_sublet()]` otherwise. */
  function KeepSublets(posts: seq<Post>, wanted: bool): (r: seq<Post>)
    requires forall p :: p in posts ==> p.content.Some?
    ensures IsSubsequence(r, posts)
    ensures forall p :: p in r <==> p in posts && SubletAnswer(p, wanted)
    ensures forall p :: multiset(r)[p] == if SubletAnswer(p, wanted) then multiset(posts)[p] else 0
    decreases |posts|
  {
    if posts == [] then []
    else
      var rest := KeepSublets(posts[1..], wanted);
      var r := if IsSublet(posts[0].content.value) == wanted then [posts[0]] + rest else rest;
      FilterStep(posts, rest, r, (p: Post) => SubletAnswer(p, wanted));
      r
  }

  /** The answers "y" and "n" split a list between them: every post goes to one of
      the two results, as often as it occurs in the list. */
  lemma SubletAnswersPartition(posts: seq<Post>)
    requires forall p :: p in posts ==> p.content.Some?
    ensures multiset(KeepSublets(posts, true)) + multiset(KeepSublets(posts, false)) == multiset(posts)
  {
    var yes, no := KeepSublets(posts, true), KeepSublets(posts, false);
    forall p ensures (multiset(yes) + multiset(no))[p] == multiset(posts)[p] {
      if p in posts {
        assert p.content.Some?;
      }
    }
  }

  /** No post is kept under both answers, and keeping the non-sublets and then the
      sublets of those leaves nothing. */
  lemma SubletAnswersExclusive(posts: seq<Post>)
    requires forall p :: p in posts ==> p.content.Some?
    ensures forall p :: !(p in KeepSublets(posts, true) && p in KeepSublets(posts, false))
    ensures KeepSublets(KeepSublets(posts, false), true) == []
  {
  }

  /** What the program asks of a post before it prints it: a seller's listing
      within the budget that, when the sublet question was answered "y" or "n",
      is or is not a sublet. */
  predicate Wanted(p: Post, budget: nat, answer: string) {
    && Listing(p) && Affordable(p, budget)
    && (Lower(answer) == "y" ==> SubletAnswer(p, true))
    && (Lower(answer) == "n" ==> SubletAnswer(p, false))
  }

  /** The three filters in the order the program applies them, with the sublet
      question answered by `answer` ("y" or "n" in any case; anything else skips it). */
  function Shortlist(posts: seq<Post>, budget: nat, answer: string): (r: seq<Post>)
    requires forall p :: p in posts ==> Consistent(p)
    ensures IsSubsequence(r, posts)
    ensures forall p :: p in r ==>
              p.content.Some? && p.seller && p.price.Some? && 0 <= p.price.value <= budget
    ensures Lower(answer) == "y" ==> forall p :: p in r ==> IsSublet(p.content.value)
    ensures Lower(answer) == "n" ==> forall p :: p in r ==> !IsSublet(p.content.value)
    ensures forall p :: p in r <==> p in posts && Wanted(p, budget, answer)
    ensures forall p :: multiset(r)[p] == if Wanted(p, budget, answer) then multiset(posts)[p] else 0
  {
    var listings := KeepListings(posts);
    // The price of every listing can be compared: it has content, hence a price.
    assert forall p :: p in listings ==> p.price.Some? by {
      forall p | p in listings ensures p.price.Some? {
        assert Consistent(p);
      }
    }
    var affordable := KeepAffordable(listings, budget);
    SubsequenceTransitive(affordable, listings, posts);
    if Lower(answer) == "y" then
      var r := KeepSublets(affordable, true);
      SubsequenceTransitive(r, affordable, posts);
      r
    else if Lower(answer) == "n" then
      var r := KeepSublets(affordable, false);
      SubsequenceTransitive(r, affordable, posts);
      r
    else
      affordable
  }
}
