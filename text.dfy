/** Character classes, ASCII case folding and substring search: the pieces of
    Python's `str` that the scraper relies on (`isnumeric`, `lower`, `in`).
    Only ASCII digits and ASCII letters are modelled. */
module Text {

  /** `str.isnumeric` restricted to the ASCII digits. */
  predicate IsDigit(c: char) {
    '0' <= c <= '9'
  }

  function DigitValue(c: char): (d: nat)
    requires IsDigit(c)
    ensures d < 10
  {
    c as int - '0' as int
  }

  function DigitChar(d: nat): (c: char)
    requires d < 10
    ensures IsDigit(c) && DigitValue(c) == d
  {
    ('0' as int + d) as char
  }

  predicate AllDigits(s: string) {
    forall i :: 0 <= i < |s| ==> IsDigit(s[i])
  }

  /** Python's `int(s)` on a string of ASCII digits (leading zeros allowed). */
  function DigitsValue(s: string): (n: nat)
    requires AllDigits(s)
    decreases |s|
  {
    if s == [] then 0 else DigitsValue(s[..|s| - 1]) * 10 + DigitValue(s[|s| - 1])
  }

  /** The decimal spelling of `n`, without leading zeros. */
  function Decimal(n: nat): (s: string)
    ensures s != [] && AllDigits(s)
    decreases n
  {
    if n < 10 then [DigitChar(n)] else Decimal(n / 10) + [DigitChar(n % 10)]
  }

  /** Reading back the decimal spelling of a number gives the number. */
  lemma {:induction false} DecimalRoundTrip(n: nat)
    ensures DigitsValue(Decimal(n)) == n
    decreases n
  {
    if n >= 10 {
      var s := Decimal(n);
      assert s[..|s| - 1] == Decimal(n / 10);
      DecimalRoundTrip(n / 10);
    }
  }

  predicate IsUpper(c: char) {
    'A' <= c <= 'Z'
  }

  predicate IsLower(c: char) {
    'a' <= c <= 'z'
  }

  function LowerChar(c: char): char {
    if IsUpper(c) then (c as int + 32) as char else c
  }

  function UpperChar(c: char): char {
    if IsLower(c) then (c as int - 32) as char else c
  }

  /** `str.lower`, ASCII letters only. */
  function Lower(s: string): (r: string)
    ensures |r| == |s|
    ensures forall i :: 0 <= i < |s| ==> r[i] == LowerChar(s[i])
  {
    seq(|s|, i requires 0 <= i < |s| => LowerChar(s[i]))
  }

  /** `str.upper`, ASCII letters only. */
  function Upper(s: string): (r: string)
    ensures |r| == |s|
    ensures forall i :: 0 <= i < |s| ==> r[i] == UpperChar(s[i])
  {
    seq(|s|, i requires 0 <= i < |s| => UpperChar(s[i]))
  }

  /** Two strings that differ only in the case of ASCII letters. */
  predicate SameUpToCase(a: string, b: string) {
    |a| == |b| && forall i :: 0 <= i < |a| ==> LowerChar(a[i]) == LowerChar(b[i])
  }

  /** Strings equal up to case lower to the same string, and conversely. */
  lemma SameUpToCaseLower(a: string, b: string)
    ensures SameUpToCase(a, b) <==> Lower(a) == Lower(b)
  {
    if Lower(a) == Lower(b) {
      assert |a| == |b|;
      forall i | 0 <= i < |a| ensures LowerChar(a[i]) == LowerChar(b[i]) {
        assert Lower(a)[i] == Lower(b)[i];
      }
    }
  }

  /** Upper-casing, and lower-casing, a string only changes the case of its letters. */
  lemma CaseChangesAreSameUpToCase(s: string)
    ensures SameUpToCase(s, Upper(s)) && SameUpToCase(s, Lower(s))
  {
  }

  /** `word` occurs in `text` starting at position `i`. */
  predicate OccursAt(text: string, word: string, i: int) {
    0 <= i <= |text| - |word| && text[i..i + |word|] == word
  }

  /** Python's `word in text`: a left-to-right search for `word` as a prefix
      of each suffix of `text`. The empty word occurs everywhere. */
  function Contains(text: string, word: string): (r: bool)
    ensures r <==> exists i :: OccursAt(text, word, i)
    decreases |text|
  {
    if word <= text then
      assert OccursAt(text, word, 0);
      true
    else if text == [] then
      false
    else
      var r := Contains(text[1..], word);
      OccursAtShift(text, word);
      r
  }

  /** When `word` is not a prefix of a non-empty `text`, it occurs in `text`
      exactly when it occurs in `text` without its first character. */
  lemma OccursAtShift(text: string, word: string)
    requires text != [] && !(word <= text)
    ensures (exists i :: OccursAt(text, word, i)) <==> exists j :: OccursAt(text[1..], word, j)
  {
    if exists i :: OccursAt(text, word, i) {
      var i :| OccursAt(text, word, i);
      assert i != 0;
      assert text[1..][i - 1..i - 1 + |word|] == text[i..i + |word|];
      assert OccursAt(text[1..], word, i - 1);
    }
    if exists j :: OccursAt(text[1..], word, j) {
      var j :| OccursAt(text[1..], word, j);
      assert text[1..][j..j + |word|] == text[j + 1..j + 1 + |word|];
      assert OccursAt(text, word, j + 1);
    }
  }

  /** A keyword search over a lower-cased text: some keyword of the list occurs. */
  function MentionsAny(lowered: string, keywords: seq<string>): (r: bool)
    ensures r <==> exists k :: 0 <= k < |keywords| && Contains(lowered, keywords[k])
    decreases |keywords|
  {
    if keywords == [] then false
    else if Contains(lowered, keywords[0]) then true
    else
      var r := MentionsAny(lowered, keywords[1..]);
      assert r ==> exists k :: 0 <= k < |keywords| && Contains(lowered, keywords[k]) by {
        if r {
          var k :| 0 <= k < |keywords| - 1 && Contains(lowered, keywords[1..][k]);
          assert Contains(lowered, keywords[k + 1]);
        }
      }
      assert (exists k :: 0 <= k < |keywords| && Contains(lowered, keywords[k])) ==> r by {
        if exists k :: 0 <= k < |keywords| && Contains(lowered, keywords[k]) {
          var k :| 0 <= k < |keywords| && Contains(lowered, keywords[k]);
          assert k != 0;
          assert keywords[1..][k - 1] == keywords[k];
        }
      }
      r
  }
}
