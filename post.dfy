/** The `Post` record of `post.py`: how one post block is turned into a record
    (author, permalink, timestamp, price, content, seller), and the queries the
    report and the filters ask of a record. The markup lookups are replaced by a
    `PostBlock` value holding what they would find. */
module Posts {

  import opened Wrappers
  import opened Text
  import opened Seqs
  import opened Comments
  import opened Prices

  /** The author given to a post with no attributable member author (likely an advertisement). */
  const NOT_A_USER: string := "!NOT A USER POST!"

  /** The origin prefixed to the timestamp anchor's path to form the permalink. */
  const BASE_URL: string := "http://www.facebook.com"

  /** The lower-case keyword that marks a post as seeking rather than offering. */
  const BUYER_KEYWORDS: seq<string> := ["budget"]

  /** The lower-case keywords that mark a post as a sublet. */
  const SUBLET_KEYWORDS: seq<string> := ["sublet", "sublease"]

  /** The length of the content excerpt shown in the report. */
  const BLURB_LENGTH: nat := 180

  // ---------------------------------------------------------------------------
  // What the markup lookups of Post.__init__ find in a post block

  /** A comment block: the texts of its author and body sub-blocks. */
  datatype CommentBlock = CommentBlock(author: string, content: string)

  /** The author block: the text of its first descendant with an `href`, if any. */
  datatype AuthorBlock = AuthorBlock(link: Option<string>)

  /** The timestamp block: its anchor's `href` and the text of its stamp. */
  datatype TimeBlock = TimeBlock(href: string, stamp: string)

  /** A product listing: the text of its price field and its whole text. */
  datatype ProductBlock = ProductBlock(priceText: string, text: string)

  /** A post block: comments in document order, the optional author block, the
      timestamp block, an optional product listing and an optional regular-post body. */
  datatype PostBlock = PostBlock(
    comments: seq<CommentBlock>,
    author: Option<AuthorBlock>,
    time: TimeBlock,
    product: Option<ProductBlock>,
    regular: Option<string>)

  datatype Post = Post(
    comments: seq<Comment>,
    author: string,
    link: string,
    timestamp: string,
    price: Option<int>,
    content: Option<string>,
    seller: bool)

  // ---------------------------------------------------------------------------
  // Keyword classifiers

  /** `Post.is_seller`: a post is a seller unless its content mentions a budget. */
  function IsSeller(content: string): (r: bool)
    ensures r <==> !Contains(Lower(content), "budget")
  {
    var r := !MentionsAny(Lower(content), BUYER_KEYWORDS);
    assert BUYER_KEYWORDS[0] == "budget";
    r
  }

  /** `Post.is_sublet`: the content mentions a sublet or a sublease. */
  function IsSublet(content: string): (r: bool)
    ensures r <==> Contains(Lower(content), "sublet") || Contains(Lower(content), "sublease")
  {
    var r := MentionsAny(Lower(content), SUBLET_KEYWORDS);
    assert SUBLET_KEYWORDS[0] == "sublet" && SUBLET_KEYWORDS[1] == "sublease";
    r
  }

  // ---------------------------------------------------------------------------
  // Post.__init__

  /** Price and content are set together: one is None exactly when the other is. */
  predicate Consistent(p: Post) {
    p.price.None? <==> p.content.None?
  }

  /** The product-listing branch: a free item, or one priced below LOW_PRICE, is noise. */
  predicate ProductIsNoise(product: ProductBlock) {
    Contains(Lower(product.priceText), "free") || Amount(product.priceText) < LOW_PRICE
  }

  /** The author name: the sentinel when the author block is missing or has no link. */
  function AuthorName(block: Option<AuthorBlock>): string {
    match block
    case Some(AuthorBlock(Some(name))) => name
    case _ => NOT_A_USER
  }

  /** `Post.__init__` on what the lookups found in `block`. */
  function NewPost(block: PostBlock): (p: Post)
    ensures Consistent(p)
    ensures |p.comments| == |block.comments|
    ensures forall i :: 0 <= i < |block.comments| ==>
              p.comments[i] == NewComment(block.comments[i].author, block.comments[i].content)
    ensures forall c :: c in p.comments ==> Valid(c)
    ensures block.author.None? || block.author.value.link.None? ==> p.author == NOT_A_USER
    ensures block.author.Some? && block.author.value.link.Some? ==> p.author == block.author.value.link.value
    ensures p.link == BASE_URL + block.time.href && p.timestamp == block.time.stamp
    ensures block.product.Some? ==> p.seller
    ensures block.product.None? && block.regular.None? ==> !p.seller && p.content.None?
    ensures p.content.Some? && block.product.Some? ==> p.content.value == block.product.value.text
    ensures p.content.Some? && block.product.None? ==> block.regular == p.content
  {
    var comments := seq(|block.comments|, i requires 0 <= i < |block.comments| =>
                          NewComment(block.comments[i].author, block.comments[i].content));
    var author := AuthorName(block.author);
    var link := BASE_URL + block.time.href;
    var timestamp := block.time.stamp;
    match block.product
    case Some(product) =>
      if ProductIsNoise(product) then
        Post(comments, author, link, timestamp, None, None, true)
      else
        Post(comments, author, link, timestamp, Some(Amount(product.priceText)), Some(product.text), true)
    case None =>
      match block.regular
      case Some(text) =>
        var lowest := LowestPrice(ScannedPrices(text));
        if lowest.None? then
          Post(comments, author, link, timestamp, None, None, false)
        else
          Post(comments, author, link, timestamp, lowest, Some(text), IsSeller(text))
      case None =>
        Post(comments, author, link, timestamp, None, None, false)
  }

  /** The product branch: the post is always a seller; it keeps a price exactly when
      the price text does not mention "free" (in any case) and reads as at least
      LOW_PRICE dollars, and that price is the one read from the price text. */
  lemma ProductBranch(block: PostBlock)
    requires block.product.Some?
    ensures NewPost(block).seller
    ensures NewPost(block).price.Some? <==>
              !Contains(Lower(block.product.value.priceText), "free")
              && Amount(block.product.value.priceText) >= LOW_PRICE
    ensures NewPost(block).price.Some? ==>
              NewPost(block).price.value == Amount(block.product.value.priceText) >= LOW_PRICE
              && NewPost(block).content == Some(block.product.value.text)
  {
  }

  /** A product whose price text says "FREE" is kept as a seller without a price. */
  lemma FreeProductHasNoPrice(block: PostBlock)
    requires block.product.Some? && Contains(Lower(block.product.value.priceText), "free")
    ensures NewPost(block).seller && NewPost(block).price.None? && NewPost(block).content.None?
  {
  }

  /** The regular-post branch, stated with the token-splitting definition of the
      scanner: the post keeps a price exactly when some dollar amount in its text
      exceeds LOW_PRICE; that price is the least such amount; and the post is a
      seller exactly when it keeps a price and does not mention a budget. */
  lemma RegularBranch(block: PostBlock)
    requires block.product.None? && block.regular.Some?
    ensures var p, amounts := NewPost(block), DollarAmounts(block.regular.value);
      && (p.price.Some? <==> exists x :: x in amounts && x > LOW_PRICE)
      && (p.price.Some? ==> p.price.value in amounts && p.price.value > LOW_PRICE
                            && (forall x :: x in amounts && x > LOW_PRICE ==> p.price.value <= x)
                            && p.content == block.regular)
      && (p.seller <==> p.price.Some? && !Contains(Lower(block.regular.value), "budget"))
  {
    ScannedPricesAreDollarAmounts(block.regular.value);
  }

  /** A regular post with no amount above LOW_PRICE is never a seller. */
  lemma CheapRegularPostIsNotSeller(block: PostBlock)
    requires block.product.None? && block.regular.Some?
    requires forall x :: x in DollarAmounts(block.regular.value) ==> x <= LOW_PRICE
    ensures !NewPost(block).seller && NewPost(block).price.None?
  {
    RegularBranch(block);
  }

  /** The two branches use different thresholds: a product priced exactly LOW_PRICE
      keeps its price, while a regular post whose only amount is LOW_PRICE has none. */
  lemma ThresholdAsymmetry(block: PostBlock, text: string)
    requires block.product.Some? && !Contains(Lower(block.product.value.priceText), "free")
    requires Amount(block.product.value.priceText) == LOW_PRICE
    requires DollarAmounts(text) == [LOW_PRICE]
    ensures NewPost(block).price == Some(LOW_PRICE)
    ensures NewPost(block.(product := None, regular := Some(text))).price.None?
  {
    RegularBranch(block.(product := None, regular := Some(text)));
  }

  // ---------------------------------------------------------------------------
  // Queries on a post

  /** `Post.in_price_range(upper, lower)`; the source compares `price` unguarded,
      so it may only be asked of a post that has a price. */
  function InPriceRange(p: Post, upper: int, lower: int): (r: bool)
    requires p.price.Some?
    ensures r ==> lower <= upper
  {
    lower <= p.price.value <= upper
  }

  /** The `messaged` flag of each comment, in order. */
  function Flags(comments: seq<Comment>): (f: seq<bool>)
    ensures |f| == |comments|
  {
    seq(|comments|, i requires 0 <= i < |comments| => comments[i].messaged)
  }

  /** The number of comments flagged as interested: `sum(x.messaged for x in comments)`
      adds one for every `True` among the flags. */
  function CountMessaged(comments: seq<Comment>): (n: nat)
    ensures n == multiset(Flags(comments))[true]
    ensures n <= |comments|
    ensures n == 0 <==> forall c :: c in comments ==> !c.messaged
    ensures n == |comments| <==> forall c :: c in comments ==> c.messaged
    decreases |comments|
  {
    if comments == [] then 0
    else
      var rest := CountMessaged(comments[1..]);
      FlagsStep(comments);
      (if comments[0].messaged then 1 else 0) + rest
  }

  /** A non-empty list of comments is its first comment followed by the rest,
      flags included. */
  lemma FlagsStep(comments: seq<Comment>)
    requires comments != []
    ensures Flags(comments) == [comments[0].messaged] + Flags(comments[1..])
    ensures forall c :: c in comments <==> c == comments[0] || c in comments[1..]
  {
    assert comments == [comments[0]] + comments[1..];
  }

  /** `Post.gauge_interest`: the number of the post's comments flagged as interested. */
  function GaugeInterest(p: Post): (n: nat)
    ensures n == multiset(Flags(p.comments))[true]
    ensures n <= |p.comments|
  {
    CountMessaged(p.comments)
  }

  /** The comments written by `author`, in order. */
  function CommentsBy(comments: seq<Comment>, author: string): (r: seq<Comment>)
    ensures IsSubsequence(r, comments)
    ensures forall c :: c in r ==> c.author == author
    ensures forall c :: c in comments && c.author == author ==> c in r
    ensures forall c :: multiset(r)[c] == if c.author == author then multiset(comments)[c] else 0
    decreases |comments|
  {
    if comments == [] then []
    else
      var rest := CommentsBy(comments[1..], author);
      var r := if comments[0].author == author then [comments[0]] + rest else rest;
      FilterStep(comments, rest, r, (c: Comment) => c.author == author);
      r
  }

  /** `Post.followups`: the post author's own comments, in document order. */
  function Followups(p: Post): (r: seq<Comment>)
    ensures IsSubsequence(r, p.comments)
    ensures forall c :: c in r <==> c in p.comments && c.author == p.author
    ensures forall c :: multiset(r)[c] == if c.author == p.author then multiset(p.comments)[c] else 0
  {
    var r := CommentsBy(p.comments, p.author);
    SubsequenceMembers(r, p.comments);
    r
  }

  /** The excerpt in `Post.__str__`: the first `min(len, 180)` characters of the
      content, or None when there is no content. */
  function Blurb(p: Post): (r: Option<string>)
    ensures r.None? <==> p.content.None?
    ensures r.Some? ==> |r.value| <= BLURB_LENGTH && r.value <= p.content.value
    ensures r.Some? && |p.content.value| <= BLURB_LENGTH ==> r.value == p.content.value
    ensures r.Some? && |p.content.value| > BLURB_LENGTH ==> |r.value| == BLURB_LENGTH
  {
    match p.content
    case None => None
    case Some(content) =>
      var length := if |content| < BLURB_LENGTH then |content| else BLURB_LENGTH;
      Some(content[..length])
  }

  // ---------------------------------------------------------------------------
  // Post.__eq__

  /** List equality of comments as Python computes it with `Comment.__eq__`. */
  predicate SameComments(xs: seq<Comment>, ys: seq<Comment>)
    decreases |xs|
  {
    if xs == [] then ys == []
    else ys != [] && Same(xs[0], ys[0]) && SameComments(xs[1..], ys[1..])
  }

  /** `Post.__eq__`: every field equal, comments compared one by one. */
  predicate SamePost(a: Post, b: Post) {
    && SameComments(a.comments, b.comments)
    && a.author == b.author && a.link == b.link && a.timestamp == b.timestamp
    && a.price == b.price && a.content == b.content && a.seller == b.seller
  }

  lemma {:induction false} SameCommentsIsEquality(xs: seq<Comment>, ys: seq<Comment>)
    ensures SameComments(xs, ys) <==> xs == ys
    decreases |xs|
  {
    if xs != [] && ys != [] {
      SameCommentsIsEquality(xs[1..], ys[1..]);
      if xs[0] == ys[0] && xs[1..] == ys[1..] {
        assert xs == [xs[0]] + xs[1..] && ys == [ys[0]] + ys[1..];
      }
    }
  }

  /** Structural equality of posts is equality of the records, so assembling the
      same block twice gives equal posts. */
  lemma SamePostIsEquality(a: Post, b: Post)
    ensures SamePost(a, b) <==> a == b
  {
    SameCommentsIsEquality(a.comments, b.comments);
  }
}
