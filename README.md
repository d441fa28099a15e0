# housing-helper: the listing extractor and classifier, in Dafny

This project models the text-extraction and classification engine of
housing-helper, a scraper for Facebook housing groups. The engine takes the
blocks of a group page and turns each post block into a `Post` record. A record
carries the author, permalink, timestamp, listing price, content and seller
flag, plus its `Comment` records. The engine then filters the records down to
the listings a renter asked for.

Modules, one per part of the source:

- `Text` (text.dfy) holds the parts of Python's `str` that the engine uses. These
  are `isnumeric` on ASCII digits, `int()` of a digit string, `lower`/`upper` on
  ASCII letters, and substring search (`word in text`). It also holds the
  keyword loop shared by the classifiers.
- `Seqs` (sequences.dfy) defines order-preserving sublists. This is what a list
  comprehension with an `if` clause produces.
- `Prices` (prices.dfy) covers the module-level functions of `post.py`:
  - `product_price` is the method `ProductPrice`, a `for` loop with a `break`. Its
    specification is the function `Amount`.
  - `extract_prices` is the method `ExtractPrices`, a `while` loop with a token
    buffer. Its specification is `ScannedPrices`, a left fold of the loop's
    `Step` function over the text. `ScannedPrices` is proved equal to
    `DollarAmounts`, an independent definition that splits the text into
    tokens.
  - `lowest_price` is the function `LowestPrice`.
- `Comments` (comment.dfy) covers the `Comment` record: its derived `messaged`
  field, `has_messaged`, `__eq__` and `__str__`.
- `Posts` (post.dfy) covers `Post.__init__` as the pure function `NewPost` over a
  `PostBlock`. A `PostBlock` holds what the markup lookups would find in a
  block. The module also covers the classifiers `is_seller` and `is_sublet`,
  `in_price_range`, `gauge_interest`, `followups`, the 180-character excerpt of
  `__str__` and `__eq__`.
- `Housing` (housing_helper.dfy) covers the filter chain of
  `housing_helper.py`:
  - the content/seller filter;
  - the budget filter;
  - the sublet filter driven by the y/n/other answer.

Every list filter and record field is pure in the source: each is assigned
once or built by a comprehension. So these become functions. The two loops
that update local variables step by step become methods with loop invariants.

Quirks of the source that the model keeps and proves:

- A dollar token that runs to the end of the text is never emitted. `'rent $500'`
  gives `[]`.
- A second `$` inside an open token is absorbed into it, and the amount stops
  there. `'$500$400.'` gives `[500]` and `'$$5.'` gives `[-1]`.
- `-1` is returned for a dollar sign with no digits. The model calls it
  `NO_DIGITS`.
- A product listing keeps a price of exactly 300, because the test is `< 300`.
  A regular post needs an amount strictly above 300.

The keyword lists (`budget`; `sublet`, `sublease`; `messaged`, `interested`,
`pm'ed`, `pm ed`) are fixed in the code, and so they are constants here.

## Model

| member | source | states |
|---|---|---|
| `Prices.Amount` | post.py:155-172 | the value read from a price string is either -1 or a non-negative number of dollars (when each arises is `Prices.AmountNoDigitsIff`) |
| `Prices.ProductPrice` | post.py:164-172 | the `for`/`break` loop over `price[1:]` returns exactly `Amount(price)` |
| `Prices.CommaIgnored` | post.py:165-169 | deleting a comma anywhere never changes the digits read |
| `Prices.AmountOfDecimal` | post.py:164-172 | round trip: `$`, the decimal spelling of n, then any character that is not a digit or comma (or nothing) reads back as n, so cents are truncated, not rounded |
| `Prices.AmountDoctests` | post.py:159-162 | `'$200'` reads as 200 and `'$1,299.99'` as 1299 |
| `Prices.AmountNoDigits` | post.py:170-171 | `'$'`, `''` and `'$$5'` give -1: nothing is collected before the first character that is not a digit or comma |
| `Prices.AmountNoDigitsIff` | post.py:164-171 | for every price, -1 is returned exactly when no digit of `price[1:]` comes before its first character that is neither a digit nor a comma; otherwise the digits read give a non-negative value |
| `Prices.AmountIgnoresFirst` | post.py:165 | the leading character of a price is skipped whatever it is: changing it never changes the value read |
| `Prices.ExtractPrices` | post.py:175-196 | the `while` loop with its token buffer returns exactly `ScannedPrices(body)` |
| `Prices.RunAppend` | post.py:187-195 | scanning two texts one after the other is scanning their concatenation |
| `Prices.ScannedPricesAreDollarAmounts` | post.py:184-196 | the scanner equals the token-splitting definition: each `$` outside a token opens one, the first character that is not `$`, a digit or a comma closes it and emits its amount, and an unclosed token emits nothing |
| `Prices.ScannedPricesRange` | post.py:190-193 | every value emitted is -1 or a non-negative number |
| `Prices.TrailingTokenDropped` | post.py:187-196 | appending any run of `$`, digits and commas to a text emits nothing more, because no step flushes the open token after the loop |
| `Prices.ScannedPricesDoctest` | post.py:180-182 | `'It is $1,000.50/month total; the bedroom is $500.'` gives `[1000, 500]` |
| `Prices.ScannedPricesUnterminated` | post.py:187-196 | `'rent $500'` gives `[]` |
| `Prices.ScannedPricesAdjacentDollars` | post.py:188-193 | `'$500$400.'` gives `[500]`: the second `$` is absorbed and the amount stops at it |
| `Prices.ScannedPricesDoubleDollar` | post.py:188-193 | `'$$5.'` gives `[-1]` |
| `Prices.Plausible` | post.py:211 | the candidates kept are exactly the elements above LOW_PRICE (300) |
| `Prices.Min` | post.py:213 | the minimum of a non-empty list is one of its elements and at most every element |
| `Prices.LowestPrice` | post.py:199-214 | None exactly when no element exceeds 300; otherwise an element of the input above 300 and at most every element above 300, so -1 is never selected |
| `Prices.LowestPriceExamples` | post.py:204-209 | `[2000,1000,1500]` gives 1000, `[10,25,1000]` gives 1000, `[10]` gives None |
| `Text.Contains` | comment.py:54 | `word in text` holds exactly when `word` occurs at some position of `text` |
| `Text.MentionsAny` | comment.py:52-56 | the early-return keyword loop is true exactly when some keyword occurs in the text |
| `Comments.HasMessaged` | comment.py:47-56 | true exactly when the lower-cased content contains `messaged`, `interested`, `pm'ed` or `pm ed` |
| `Comments.NewComment` | comment.py:22-31 | the comment keeps the author and content it was given, and `messaged` equals `has_messaged` of that content |
| `Comments.HasMessagedIgnoresCase` | comment.py:52-54 | two contents that differ only in the case of ASCII letters get the same `messaged` |
| `Comments.HasMessagedOfUpper` | comment.py:52-54 | upper-casing the content does not change `has_messaged` or the constructed `messaged` |
| `Comments.SameIffAuthorAndContent` | comment.py:33-39 | for constructed comments, `__eq__` holds exactly when author and content are equal, which is value equality |
| `Comments.Render` | comment.py:41-45 | the rendering is the author, then `': '`, then the content, and both parts can be cut back out of it |
| `Posts.IsSeller` | post.py:114-123 | a post is a seller exactly when its lower-cased content does not contain `budget` |
| `Posts.IsSublet` | post.py:125-133 | a post is a sublet exactly when its lower-cased content contains `sublet` or `sublease` |
| `Posts.NewPost` | post.py:36-87 | price is None exactly when content is None; one valid comment per comment block, in order; the author is the sentinel when the author block or its link is missing, and the link text otherwise; the link is the base URL followed by the anchor path; a product block always gives a seller; a block with neither product nor regular body gives no content and no seller; the content comes from the branch that was taken |
| `Posts.ProductBranch` | post.py:66-75 | a product post is a seller; it keeps a price exactly when its price text lacks `free` in any case and reads as at least 300; the price is that reading and the content is the listing text |
| `Posts.FreeProductHasNoPrice` | post.py:68-71 | a product whose price text contains `free` in any case is a seller with no price and no content |
| `Posts.RegularBranch` | post.py:76-84 | a regular post keeps a price exactly when some dollar amount in its text exceeds 300; that price is the least such amount; the post is a seller exactly when it keeps a price and does not mention `budget` |
| `Posts.CheapRegularPostIsNotSeller` | post.py:77-80 | a regular post with no amount above 300 is not a seller and has no price |
| `Posts.ThresholdAsymmetry` | post.py:66-84 | a product priced exactly 300 keeps price 300, while a regular post whose only amount is 300 gets no price |
| `Posts.InPriceRange` | post.py:135-140 | asked only of a post with a price; true only when the bounds are ordered |
| `Posts.CountMessaged` | post.py:146 | the count is the number of `True` values among the comments' `messaged` flags, which is what summing the booleans gives; hence at most the number of comments, 0 exactly when none is flagged, and the length exactly when all are |
| `Posts.GaugeInterest` | post.py:142-146 | the interest count is the number of the post's comments flagged `messaged`, so it never exceeds the number of comments |
| `Posts.CommentsBy` | post.py:152 | the result is an order-preserving sublist of the comments; every copy of a comment by the author is kept and no other comment is |
| `Posts.Followups` | post.py:148-152 | the follow-ups are an order-preserving sublist of the comments, holding every copy of each comment whose author is the post author and nothing else |
| `Posts.Blurb` | post.py:103-107 | None exactly when there is no content; otherwise a prefix of the content of at most 180 characters, which is the whole content when the content is that short and exactly 180 characters otherwise |
| `Posts.SameCommentsIsEquality` | post.py:93 | comparing comment lists element by element with `Comment.__eq__` is list equality |
| `Posts.SamePostIsEquality` | post.py:89-97 | `Post.__eq__` holds exactly when the two records are equal, so assembling the same block twice gives equal posts |
| `Housing.KeepListings` | housing_helper.py:76 | an order-preserving sublist holding every copy of each post with content that is a seller, and no other post |
| `Housing.KeepAffordable` | housing_helper.py:77 | asked only of posts that all have a price; an order-preserving sublist holding every copy of each post priced between 0 and the budget, and no other post |
| `Housing.KeepSublets` | housing_helper.py:78-81 | an order-preserving sublist holding every copy of each post whose sublet classification is the one wanted, and no other post |
| `Housing.SubletAnswersPartition` | housing_helper.py:78-81 | the `y` and `n` results split the list: their multisets add up to the multiset of the list |
| `Housing.SubletAnswersExclusive` | housing_helper.py:78-81 | no post is kept under both answers, and keeping the non-sublets and then the sublets of those leaves nothing |
| `Housing.Shortlist` | housing_helper.py:76-81 | on posts whose price and content are set together: the result is an order-preserving sublist; every survivor has content, is a seller and has a price between 0 and the budget, so the unguarded comparison never meets None; answer `y` (any case) keeps only sublets and `n` only non-sublets, and any other answer skips the sublet filter; every copy of every post meeting these criteria survives, and nothing else does |

## Left out

- page_to_html.py is not part of this model. It is browser automation: login,
  scrolling, expanding comments, waiting and writing the page to a file.
- The rest of housing_helper.py is not modelled: the `input()` prompts and their
  retry loops, `print_intro`, the printing, `float_input` (Python float parsing
  and exceptions), `find_bodies` (file reading and markup parsing) and
  `create_posts`. `create_posts` only maps the `Post` constructor over the blocks.
  `NewPost` ensures that every post it builds meets the requirement of
  `Housing.Shortlist`.
- The markup lookups of `Post.__init__` and `Comment.__init__` are not modelled.
  A `PostBlock` value stands for what they find.
- Posts.NewPost: some parts of a block are fields that are always there: the
  timestamp block, its anchor, its stamp text, the price field of a product
  listing, and the author and body of a comment block. When one of these is
  missing, the source raises an exception, so those error paths are not
  modelled.
- The `__main__` blocks of post.py and comment.py are not modelled. They only
  read a file and print.
- The layout of `Post.__str__` is not modelled: the `str.format` text, `$None`,
  the interest line and the follow-up lines. Only the 180-character excerpt is
  (`Posts.Blurb`).
- Unicode is not modelled. `isnumeric` is restricted to the ASCII digits. `lower`
  and `upper` only change ASCII letters.
- Comments.HasMessagedOfUpper: holds for this ASCII model only. Python's full case
  mappings break it: `'ſ'.upper()` is `'S'`, so `'meſſaged'` does not signal
  interest but its upper-cased form does.
- The `type(self) == type(other)` test in both `__eq__` methods is not modelled.
  It is Python runtime typing, and every value here has its record type.
- Posts.InPriceRange: its own contract only says that a true answer needs
  ordered bounds. The range test it makes is stated where it is used, by
  `Housing.KeepAffordable` and `Housing.Shortlist`.
