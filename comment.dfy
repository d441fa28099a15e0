/** The `Comment` record of `comment.py`: a commenter's name, the comment text
    and whether the text signals interest in the offer. */
module Comments {

  import opened Text

  /** The lower-case keywords that signal that a commenter contacted the poster. */
  const MESSAGED_KEYWORDS: seq<string> := ["messaged", "interested", "pm'ed", "pm ed"]

  datatype Comment = Comment(author: string, content: string, messaged: bool)

  /** `Comment.has_messaged`: some keyword occurs in the lower-cased content. */
  function HasMessaged(content: string): (r: bool)
    ensures r <==> Contains(Lower(content), "messaged") || Contains(Lower(content), "interested")
                   || Contains(Lower(content), "pm'ed") || Contains(Lower(content), "pm ed")
  {
    var r := MentionsAny(Lower(content), MESSAGED_KEYWORDS);
    assert MESSAGED_KEYWORDS[0] == "messaged" && MESSAGED_KEYWORDS[1] == "interested";
    assert MESSAGED_KEYWORDS[2] == "pm'ed" && MESSAGED_KEYWORDS[3] == "pm ed";
    r
  }

  /** `messaged` is derived from the content and never set on its own. */
  predicate Valid(c: Comment) {
    c.messaged == HasMessaged(c.content)
  }

  /** `Comment.__init__` on the author and content texts found in the comment block. */
  function NewComment(author: string, content: string): (c: Comment)
    ensures Valid(c)
    ensures c.author == author && c.content == content
  {
    Comment(author, content, HasMessaged(content))
  }

  /** Changing the case of ASCII letters in a comment does not change whether it
      signals interest. */
  lemma HasMessagedIgnoresCase(a: string, b: string)
    requires SameUpToCase(a, b)
    ensures HasMessaged(a) == HasMessaged(b)
  {
    SameUpToCaseLower(a, b);
  }

  /** In particular `has_messaged(c) == has_messaged(c.upper())`. */
  lemma HasMessagedOfUpper(author: string, content: string)
    ensures HasMessaged(Upper(content)) == HasMessaged(content)
    ensures NewComment(author, Upper(content)).messaged == NewComment(author, content).messaged
  {
    CaseChangesAreSameUpToCase(content);
    HasMessagedIgnoresCase(content, Upper(content));
  }

  /** `Comment.__eq__`: author, content and `messaged` all equal. */
  predicate Same(a: Comment, b: Comment) {
    a.author == b.author && a.content == b.content && a.messaged == b.messaged
  }

  /** Since `messaged` is derived, two comments are equal exactly when their
      authors and contents are, and equality is equality of the values. */
  lemma SameIffAuthorAndContent(a: Comment, b: Comment)
    requires Valid(a) && Valid(b)
    ensures Same(a, b) <==> a.author == b.author && a.content == b.content
    ensures Same(a, b) <==> a == b
  {
  }

  /** `Comment.__str__`: the author, a colon and a space, then the content. */
  function Render(c: Comment): (s: string)
    ensures |s| == |c.author| + 2 + |c.content|
    ensures s[..|c.author|] == c.author
    ensures s[|c.author|..|c.author| + 2] == ": "
    ensures s[|c.author| + 2..] == c.content
  {
    c.author + ": " + c.content
  }
}
