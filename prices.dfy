/** The dollar-amount scanner and the price selector of `post.py`:
    `product_price`, `extract_prices` and `lowest_price`. */
module Prices {

  import opened Wrappers
  import opened Text

  /** Post.LOW_PRICE: amounts at or below it are taken to be incidental figures. */
  const LOW_PRICE: int := 300

  /** The value `product_price` returns when no digit follows the leading character. */
  const NO_DIGITS: int := -1

  // ---------------------------------------------------------------------------
  // product_price

  /** A character that ends the digits of an amount: neither a digit nor a comma. */
  predicate EndsAmount(c: char) {
    !IsDigit(c) && c != ','
  }

  /** The digits of `s` read from its start, skipping commas, up to the first
      character that ends an amount. */
  function LeadingDigits(s: string): (d: string)
    ensures AllDigits(d)
    decreases |s|
  {
    if s == [] then []
    else if IsDigit(s[0]) then [s[0]] + LeadingDigits(s[1..])
    else if s[0] == ',' then LeadingDigits(s[1..])
    else []
  }

  /** `price[1:]`: everything after the leading character (empty for an empty string). */
  function AfterFirst(s: string): string {
    if s == [] then [] else s[1..]
  }

  /** What `product_price(price)` returns: the leading character is ignored, the
      digits up to the first character that ends the amount are read as a decimal
      number, and NO_DIGITS is returned when there are none. */
  function Amount(price: string): (dollars: int)
    ensures dollars == NO_DIGITS || dollars >= 0
  {
    var digits := LeadingDigits(AfterFirst(price));
    if digits == [] then NO_DIGITS else DigitsValue(digits)
  }

  /** `product_price`: the `for` loop with its `break`, accumulating the digit string. */
  method ProductPrice(price: string) returns (dollars: int)
    ensures dollars == Amount(price)
  {
    var rest := AfterFirst(price);
    var value := "";
    for k := 0 to |rest|
      invariant AllDigits(value)
      invariant value + LeadingDigits(rest[k..]) == LeadingDigits(rest)
    {
      var character := rest[k];
      assert rest[k..] == [character] + rest[k + 1..];
      if IsDigit(character) {
        value := value + [character];
      } else if character != ',' {
        assert LeadingDigits(rest[k..]) == [];
        assert value == LeadingDigits(rest);
        break;
      }
      assert rest[k + 1..] == [] ==> k + 1 == |rest|;
    }
    assert value == LeadingDigits(rest);
    if value == "" {
      return NO_DIGITS;
    }
    return DigitsValue(value);
  }

  /** Commas inside an amount are ignored: deleting one does not change the digits read. */
  lemma {:induction false} CommaIgnored(a: string, b: string)
    ensures LeadingDigits(a + [','] + b) == LeadingDigits(a + b)
    decreases |a|
  {
    var x, y := a + [','] + b, a + b;
    if a == [] {
      assert x == [','] + b && y == b;
      assert x[0] == ',' && x[1..] == b;
    } else {
      assert x[0] == y[0] == a[0];
      assert x[1..] == a[1..] + [','] + b;
      assert y[1..] == a[1..] + b;
      CommaIgnored(a[1..], b);
    }
  }

  /** The digits read from a concatenation: those of the first part, and those of
      the second part too when the first part never ends the amount. */
  lemma {:induction false} LeadingDigitsAppend(a: string, b: string)
    requires forall i :: 0 <= i < |a| ==> !EndsAmount(a[i])
    ensures LeadingDigits(a + b) == LeadingDigits(a) + LeadingDigits(b)
    decreases |a|
  {
    var y := a + b;
    if a == [] {
      assert y == b;
    } else {
      assert y[0] == a[0] && y[1..] == a[1..] + b;
      LeadingDigitsAppend(a[1..], b);
      if IsDigit(a[0]) {
        assert [a[0]] + LeadingDigits(a[1..]) + LeadingDigits(b)
            == [a[0]] + (LeadingDigits(a[1..]) + LeadingDigits(b));
      }
    }
  }

  /** Round trip: a dollar sign, the decimal spelling of `n`, then anything that
      does not continue the amount (end of text, a decimal point and cents, ...),
      is read back as `n`. In particular fractions are truncated, not rounded. */
  lemma AmountOfDecimal(n: nat, rest: string)
    requires rest == [] || EndsAmount(rest[0])
    ensures Amount("$" + Decimal(n) + rest) == n
  {
    var d := Decimal(n);
    var price := "$" + d + rest;
    assert price[1..] == d + rest;
    LeadingDigitsAppend(d, rest);
    LeadingDigitsOfDigits(d);
    assert LeadingDigits(rest) == [];
    assert LeadingDigits(d + rest) == d;
    DecimalRoundTrip(n);
  }

  lemma {:induction false} LeadingDigitsOfDigits(d: string)
    requires AllDigits(d)
    ensures LeadingDigits(d) == d
    decreases |d|
  {
    if d != [] {
      LeadingDigitsOfDigits(d[1..]);
    }
  }

  /** The doctests of `product_price`: `'$200'` gives 200 and `'$1,299.99'` gives 1299. */
  lemma AmountDoctests()
    ensures Amount("$200") == 200
    ensures Amount("$1,299.99") == 1299
  {
    AmountOfTwoHundred();
    AmountWithCents();
  }

  lemma AmountOfTwoHundred()
    ensures Amount("$200") == 200
  {
    assert DigitsValue("200") == 200 by {
      assert "200"[..2] == "20" && "20"[..1] == "2" && "2"[..0] == "";
    }
    assert LeadingDigits("200") == "200";
  }

  lemma AmountWithCents()
    ensures Amount("$1,299.99") == 1299
  {
    DigitsOfTwelveNinetyNine();
    assert LeadingDigits("1,299.99") == "1299";
  }

  lemma DigitsOfTwelveNinetyNine()
    ensures DigitsValue("1299") == 1299
  {
    assert "1299"[..3] == "129" && "129"[..2] == "12" && "12"[..1] == "1" && "1"[..0] == "";
  }

  /** A lone dollar sign, and the empty string, have no digits. */
  lemma AmountNoDigits()
    ensures Amount("$") == NO_DIGITS && Amount("") == NO_DIGITS
    ensures Amount("$$5") == NO_DIGITS
  {
    assert "$$5"[1..] == "$5";
  }

  /** Every digit of `s` comes after a character that ends the amount, so reading
      `s` from its start collects no digit. */
  predicate NoLeadingDigit(s: string) {
    forall i :: 0 <= i < |s| && IsDigit(s[i]) ==> exists j :: 0 <= j < i && EndsAmount(s[j])
  }

  /** `product_price` returns -1 exactly when no digit of `price[1:]` comes before
      its first character that is neither a digit nor a comma. */
  lemma AmountNoDigitsIff(price: string)
    ensures Amount(price) == NO_DIGITS <==> NoLeadingDigit(AfterFirst(price))
  {
    LeadingDigitsEmptyIff(AfterFirst(price));
  }

  lemma {:induction false} LeadingDigitsEmptyIff(s: string)
    ensures LeadingDigits(s) == [] <==> NoLeadingDigit(s)
    decreases |s|
  {
    if s == [] {
    } else if IsDigit(s[0]) {
      assert LeadingDigits(s) != [] && !NoLeadingDigit(s);
    } else if s[0] == ',' {
      var t := s[1..];
      LeadingDigitsEmptyIff(t);
      if NoLeadingDigit(t) {
        forall i | 0 <= i < |s| && IsDigit(s[i]) ensures exists j :: 0 <= j < i && EndsAmount(s[j]) {
          assert t[i - 1] == s[i];
          var j :| 0 <= j < i - 1 && EndsAmount(t[j]);
          assert s[j + 1] == t[j];
        }
      }
      if NoLeadingDigit(s) {
        forall i | 0 <= i < |t| && IsDigit(t[i]) ensures exists j :: 0 <= j < i && EndsAmount(t[j]) {
          assert s[i + 1] == t[i];
          var j :| 0 <= j < i + 1 && EndsAmount(s[j]);
          assert t[j - 1] == s[j];
        }
      }
    } else {
      forall i | 0 <= i < |s| && IsDigit(s[i]) ensures exists j :: 0 <= j < i && EndsAmount(s[j]) {
        assert EndsAmount(s[0]);
      }
    }
  }

  /** The leading character of a price is skipped whatever it is. */
  lemma AmountIgnoresFirst(c: char, d: char, rest: string)
    ensures Amount([c] + rest) == Amount([d] + rest)
  {
    assert ([c] + rest)[1..] == rest;
    assert ([d] + rest)[1..] == rest;
  }

  // ---------------------------------------------------------------------------
  // extract_prices

  /** The two variables of the scanning loop: the amounts emitted so far and the
      open token (`price`), which is empty when no token is open. */
  datatype Scanner = Scanner(prices: seq<int>, token: string)

  /** One iteration of the `extract_prices` loop on character `c`. */
  function Step(s: Scanner, c: char): Scanner {
    if c == '$' then s.(token := s.token + [c])
    else if |s.token| > 0 && IsDigit(c) then s.(token := s.token + [c])
    else if |s.token| > 0 && c != ',' then Scanner(s.prices + [Amount(s.token)], "")
    else s
  }

  /** The loop run over the remaining text. */
  function Run(s: Scanner, text: string): Scanner
    decreases |text|
  {
    if text == [] then s else Run(Step(s, text[0]), text[1..])
  }

  /** What `extract_prices(body)` returns. */
  function ScannedPrices(body: string): seq<int> {
    Run(Scanner([], ""), body).prices
  }

  /** `extract_prices`: the `while` loop over index `i` with its token buffer. */
  method ExtractPrices(body: string) returns (prices: seq<int>)
    ensures prices == ScannedPrices(body)
  {
    prices := [];
    var price := "";
    var i := 0;
    while i < |body|
      invariant 0 <= i <= |body|
      invariant Run(Scanner(prices, price), body[i..]) == Run(Scanner([], ""), body)
    {
      assert body[i..][1..] == body[i + 1..];
      if body[i] == '$' {
        price := price + [body[i]];
      } else if |price| > 0 && IsDigit(body[i]) {
        price := price + [body[i]];
      } else if |price| > 0 && body[i] != ',' {
        var dollars := ProductPrice(price);
        prices := prices + [dollars];
        price := "";
      }
      i := i + 1;
    }
  }

  /** Running the loop over two texts in turn is running it over their concatenation. */
  lemma {:induction false} RunAppend(s: Scanner, a: string, b: string)
    ensures Run(s, a + b) == Run(Run(s, a), b)
    decreases |a|
  {
    var y := a + b;
    if a == [] {
      assert y == b;
    } else {
      assert y[0] == a[0] && y[1..] == a[1..] + b;
      RunAppend(Step(s, a[0]), a[1..], b);
    }
  }

  // ---------------------------------------------------------------------------
  // A reference definition of extract_prices by splitting the text into tokens

  /** A character that a token absorbs: the dollar sign, a digit or a comma. */
  predicate InToken(c: char) {
    c == '$' || IsDigit(c) || c == ','
  }

  /** The index of the first character of `s` that closes a token, if any. */
  function CloserIndex(s: string): (k: Option<nat>)
    ensures k.Some? ==> k.value < |s| && !InToken(s[k.value])
                        && forall i :: 0 <= i < k.value ==> InToken(s[i])
    ensures k.None? ==> forall i :: 0 <= i < |s| ==> InToken(s[i])
    decreases |s|
  {
    if s == [] then None
    else if !InToken(s[0]) then Some(0)
    else match CloserIndex(s[1..])
      case None => None
      case Some(k) => Some(k + 1)
  }

  /** The amounts in `text`: each dollar sign outside a token starts one, which
      runs up to the first character that is not a dollar sign, digit or comma;
      that character closes it and its amount is the amount of the token's
      characters. A token that no character closes yields nothing. */
  function DollarAmounts(text: string): seq<int>
    decreases |text|
  {
    if text == [] then []
    else if text[0] != '$' then DollarAmounts(text[1..])
    else match CloserIndex(text[1..])
      case None => []
      case Some(k) => [Amount(text[..k + 1])] + DollarAmounts(text[k + 2..])
  }

  /** The scanner agrees with the token-splitting definition on every text. */
  lemma ScannedPricesAreDollarAmounts(body: string)
    ensures ScannedPrices(body) == DollarAmounts(body)
  {
    RunIdle([], body);
  }

  /** From a state with no open token, the loop appends `DollarAmounts` of the rest. */
  lemma {:induction false} RunIdle(p: seq<int>, s: string)
    ensures Run(Scanner(p, ""), s).prices == p + DollarAmounts(s)
    decreases |s|, 1
  {
    if s == [] {
    } else if s[0] != '$' {
      assert Step(Scanner(p, ""), s[0]) == Scanner(p, "");
      RunIdle(p, s[1..]);
    } else {
      assert Step(Scanner(p, ""), s[0]) == Scanner(p, "$");
      RunOpen(p, "$", s[1..]);
      match CloserIndex(s[1..])
      case None =>
      case Some(k) =>
        assert "$" + s[1..][..k] == s[..k + 1];
        assert s[1..][k + 1..] == s[k + 2..];
    }
  }

  /** The amounts emitted from a state whose open token is `t`, with `p`
      emitted before it and `s` still to read: the amount of `t` and the
      characters up to the first closer, then the amounts after that closer. */
  function OpenAmounts(p: seq<int>, t: string, s: string): seq<int> {
    match CloserIndex(s)
    case None => p
    case Some(k) => p + [Amount(t + s[..k])] + DollarAmounts(s[k + 1..])
  }

  lemma {:induction false} RunOpen(p: seq<int>, t: string, s: string)
    requires t != [] && t[0] == '$'
    ensures Run(Scanner(p, t), s).prices == OpenAmounts(p, t, s)
    decreases |s|, 0
  {
    if s == [] {
    } else if !InToken(s[0]) {
      assert CloserIndex(s) == Some(0);
      assert Step(Scanner(p, t), s[0]) == Scanner(p + [Amount(t)], "");
      assert t + s[..0] == t;
      RunIdle(p + [Amount(t)], s[1..]);
    } else {
      var t' := if s[0] == ',' then t else t + [s[0]];
      assert Step(Scanner(p, t), s[0]) == Scanner(p, t');
      RunOpen(p, t', s[1..]);
      OpenAmountsAbsorb(p, t, s);
    }
  }

  /** A dollar sign, digit or comma read while a token is open only extends the token. */
  lemma OpenAmountsAbsorb(p: seq<int>, t: string, s: string)
    requires t != [] && s != [] && InToken(s[0])
    ensures OpenAmounts(p, t, s) == OpenAmounts(p, if s[0] == ',' then t else t + [s[0]], s[1..])
  {
    match CloserIndex(s[1..])
    case None =>
    case Some(k) =>
      assert CloserIndex(s) == Some(k + 1);
      assert s[1..][k + 1..] == s[k + 2..];
      TokenAbsorb(t, s, k);
  }

  /** The token closed at position `k + 1` of `s` has the amount of the token
      extended by `s[0]` and closed at position `k` of `s[1..]`. */
  lemma TokenAbsorb(t: string, s: string, k: nat)
    requires t != [] && s != [] && InToken(s[0]) && k < |s| - 1
    ensures Amount(t + s[..k + 1]) == Amount((if s[0] == ',' then t else t + [s[0]]) + s[1..][..k])
  {
    assert s[..k + 1] == [s[0]] + s[1..][..k];
    if s[0] == ',' {
      assert t + s[..k + 1] == t + [','] + s[1..][..k];
      AmountCommaIgnored(t, s[1..][..k]);
    } else {
      assert t + s[..k + 1] == t + [s[0]] + s[1..][..k];
    }
  }

  /** A comma after the leading character of a token does not change its amount. */
  lemma AmountCommaIgnored(t: string, u: string)
    requires t != []
    ensures Amount(t + [','] + u) == Amount(t + u)
  {
    assert AfterFirst(t + [','] + u) == t[1..] + [','] + u;
    assert AfterFirst(t + u) == t[1..] + u;
    CommaIgnored(t[1..], u);
  }

  /** Every value `extract_prices` emits is either the no-digits marker or a
      non-negative number of dollars. */
  lemma ScannedPricesRange(body: string)
    ensures forall x :: x in ScannedPrices(body) ==> x == NO_DIGITS || x >= 0
  {
    ScannedPricesAreDollarAmounts(body);
    DollarAmountsRange(body);
  }

  lemma {:induction false} DollarAmountsRange(text: string)
    ensures forall x :: x in DollarAmounts(text) ==> x == NO_DIGITS || x >= 0
    decreases |text|
  {
    if text != [] {
      if text[0] != '$' {
        DollarAmountsRange(text[1..]);
      } else if CloserIndex(text[1..]).Some? {
        DollarAmountsRange(text[CloserIndex(text[1..]).value + 2..]);
      }
    }
  }

  /** A token still open at the end of the text is never emitted: appending
      dollar signs, digits and commas emits nothing. */
  lemma TrailingTokenDropped(body: string, tail: string)
    requires forall i :: 0 <= i < |tail| ==> InToken(tail[i])
    ensures ScannedPrices(body + tail) == ScannedPrices(body)
  {
    RunAppend(Scanner([], ""), body, tail);
    RunTokenChars(Run(Scanner([], ""), body), tail);
  }

  lemma {:induction false} RunTokenChars(s: Scanner, tail: string)
    requires forall i :: 0 <= i < |tail| ==> InToken(tail[i])
    ensures Run(s, tail).prices == s.prices
    decreases |tail|
  {
    if tail != [] {
      RunTokenChars(Step(s, tail[0]), tail[1..]);
    }
  }

  /** Text without a dollar sign, read with no token open, emits nothing. */
  lemma {:induction false} DollarAmountsSkip(w: string, rest: string)
    requires forall i :: 0 <= i < |w| ==> w[i] != '$'
    ensures DollarAmounts(w + rest) == DollarAmounts(rest)
    decreases |w|
  {
    var y := w + rest;
    if w == [] {
      assert y == rest;
    } else {
      assert y[0] == w[0] && y[1..] == w[1..] + rest;
      DollarAmountsSkip(w[1..], rest);
    }
  }

  /** A token `tok` (a dollar sign, then dollar signs, digits and commas) followed
      by a closer `c` emits the amount of `tok`, and scanning resumes after `c`. */
  lemma DollarAmountsToken(tok: string, c: char, rest: string)
    requires tok != [] && tok[0] == '$'
    requires forall i :: 1 <= i < |tok| ==> InToken(tok[i])
    requires !InToken(c)
    ensures DollarAmounts(tok + [c] + rest) == [Amount(tok)] + DollarAmounts(rest)
  {
    var text := tok + [c] + rest;
    var x := tok[1..];
    assert text[0] == '$';
    assert text[1..] == x + [c] + rest;
    CloserIndexAfter(x, c, rest);
    assert text[..|x| + 1] == tok;
    assert text[|x| + 2..] == rest;
  }

  lemma {:induction false} CloserIndexAfter(x: string, c: char, rest: string)
    requires forall i :: 0 <= i < |x| ==> InToken(x[i])
    requires !InToken(c)
    ensures CloserIndex(x + [c] + rest) == Some(|x|)
    decreases |x|
  {
    var y := x + [c] + rest;
    if x == [] {
      assert y[0] == c;
    } else {
      assert y[0] == x[0] && y[1..] == x[1..] + [c] + rest;
      CloserIndexAfter(x[1..], c, rest);
    }
  }

  lemma AmountsInDoctest()
    ensures Amount("$1,000") == 1000 && Amount("$500") == 500 && Amount("$500$400") == 500
  {
    AmountOfThousand();
    AmountOfFiveHundred();
    assert LeadingDigits("500$400") == "500";
  }

  lemma AmountOfThousand()
    ensures Amount("$1,000") == 1000
  {
    assert "1000"[..3] == "100" && "100"[..2] == "10" && "10"[..1] == "1" && "1"[..0] == "";
    assert LeadingDigits("1,000") == "1000";
  }

  lemma DigitsOfFiveHundred()
    ensures DigitsValue("500") == 500
  {
    assert "500"[..2] == "50" && "50"[..1] == "5" && "5"[..0] == "";
  }

  lemma AmountOfFiveHundred()
    ensures Amount("$500") == 500
  {
    DigitsOfFiveHundred();
    assert LeadingDigits("500") == "500";
  }

  // The doctest text, cut at its two tokens. Each cut of the long literal, and
  // each piece of the scan below, is a lemma of its own: stated together they
  // give the verifier one large obligation over the whole literal, which does
  // not fit its resource limit.

  lemma DoctestCut1()
    ensures "It is $1,000.50/month total; the bedroom is $500."
         == "It is $1,000.50/month t" + "otal; the bedroom is $500."
  {
  }

  lemma DoctestCut2()
    ensures "It is $1,000.50/month t" == "It is " + ("$1,000" + ['.'] + "50/month t")
  {
  }

  lemma DoctestCut3()
    ensures "otal; the bedroom is $500." == "otal; the bedroom is " + ("$500" + ['.'] + [])
  {
  }

  lemma DoctestPieces()
    ensures "It is $1,000.50/month total; the bedroom is $500."
         == "It is " + ("$1,000" + ['.'] + ("50/month t" + ("otal; the bedroom is " + ("$500" + ['.'] + []))))
  {
    DoctestCut1();
    DoctestCut2();
    DoctestCut3();
    var a, b, c, d, e := "It is ", "$1,000" + ['.'], "50/month t", "otal; the bedroom is ", "$500" + ['.'] + [];
    assert (a + (b + c)) + (d + e) == a + (b + (c + (d + e)));
  }

  lemma DollarAmountsDoctestTail()
    ensures DollarAmounts("50/month t" + ("otal; the bedroom is " + ("$500" + ['.'] + []))) == [500]
  {
    DollarAmountsSkip("50/month t", "otal; the bedroom is " + ("$500" + ['.'] + []));
    DollarAmountsSkip("otal; the bedroom is ", "$500" + ['.'] + []);
    DollarAmountsToken("$500", '.', []);
    AmountsInDoctest();
  }

  lemma DollarAmountsDoctestTokens()
    ensures DollarAmounts("$1,000" + ['.'] + ("50/month t" + ("otal; the bedroom is " + ("$500" + ['.'] + [])))) == [1000, 500]
  {
    DollarAmountsToken("$1,000", '.', "50/month t" + ("otal; the bedroom is " + ("$500" + ['.'] + [])));
    DollarAmountsDoctestTail();
    AmountsInDoctest();
  }

  lemma DollarAmountsDoctestPieces()
    ensures DollarAmounts("It is " + ("$1,000" + ['.'] + ("50/month t" + ("otal; the bedroom is " + ("$500" + ['.'] + []))))) == [1000, 500]
  {
    DollarAmountsSkip("It is ", "$1,000" + ['.'] + ("50/month t" + ("otal; the bedroom is " + ("$500" + ['.'] + []))));
    DollarAmountsDoctestTokens();
  }

  lemma DollarAmountsDoctest()
    ensures DollarAmounts("It is $1,000.50/month total; the bedroom is $500.") == [1000, 500]
  {
    DoctestPieces();
    DollarAmountsDoctestPieces();
  }

  /** The doctest of `extract_prices`. */
  lemma ScannedPricesDoctest()
    ensures ScannedPrices("It is $1,000.50/month total; the bedroom is $500.") == [1000, 500]
  {
    ScannedPricesAreDollarAmounts("It is $1,000.50/month total; the bedroom is $500.");
    DollarAmountsDoctest();
  }

  /** A token still open at the end of the text is dropped: `'rent $500'` gives no amount. */
  lemma ScannedPricesUnterminated()
    ensures ScannedPrices("rent $500") == []
  {
    assert "rent $500" == "rent " + "$500";
    TrailingTokenDropped("rent ", "$500");
    ScannedPricesAreDollarAmounts("rent ");
    DollarAmountsSkip("rent ", "");
    assert "rent " + "" == "rent ";
  }

  lemma DollarAmountsAdjacent()
    ensures DollarAmounts("$500$400.") == [500]
  {
    assert "$500$400." == "$500$400" + ['.'] + [];
    DollarAmountsToken("$500$400", '.', []);
    AmountsInDoctest();
  }

  /** A second dollar sign inside an open token is absorbed, and the token's amount
      stops at it: `'$500$400.'` gives `[500]`. */
  lemma ScannedPricesAdjacentDollars()
    ensures ScannedPrices("$500$400.") == [500]
  {
    ScannedPricesAreDollarAmounts("$500$400.");
    DollarAmountsAdjacent();
  }

  /** A second dollar sign right after the first: `'$$5.'` gives the no-digits marker. */
  lemma ScannedPricesDoubleDollar()
    ensures ScannedPrices("$$5.") == [NO_DIGITS]
  {
    assert "$$5." == "$$5" + ['.'] + [];
    ScannedPricesAreDollarAmounts("$$5.");
    DollarAmountsToken("$$5", '.', []);
    AmountNoDigits();
  }

  // ---------------------------------------------------------------------------
  // lowest_price

  /** `[x for x in prices if x > Post.LOW_PRICE]`. */
  function Plausible(prices: seq<int>): (r: seq<int>)
    ensures forall x :: x in r <==> x in prices && x > LOW_PRICE
    decreases |prices|
  {
    if prices == [] then []
    else if prices[0] > LOW_PRICE then [prices[0]] + Plausible(prices[1..])
    else Plausible(prices[1..])
  }

  /** Python's `min` of a non-empty list. */
  function Min(xs: seq<int>): (m: int)
    requires xs != []
    ensures m in xs
    ensures forall x :: x in xs ==> m <= x
    decreases |xs|
  {
    if |xs| == 1 then xs[0]
    else
      var m := Min(xs[1..]);
      assert forall x :: x in xs ==> x == xs[0] || x in xs[1..];
      if xs[0] <= m then xs[0] else m
  }

  /** `lowest_price`: the least candidate above LOW_PRICE, or None when no
      candidate exceeds it (so the NO_DIGITS marker is never selected). */
  function LowestPrice(prices: seq<int>): (r: Option<int>)
    ensures r.None? <==> forall x :: x in prices ==> x <= LOW_PRICE
    ensures r.Some? ==> r.value in prices && r.value > LOW_PRICE
    ensures r.Some? ==> forall x :: x in prices && x > LOW_PRICE ==> r.value <= x
  {
    var candidates := Plausible(prices);
    if candidates != [] then Some(Min(candidates)) else None
  }

  /** The doctests of `lowest_price`. */
  lemma LowestPriceExamples()
    ensures LowestPrice([2000, 1000, 1500]) == Some(1000)
    ensures LowestPrice([10, 25, 1000]) == Some(1000)
    ensures LowestPrice([10]) == None
  {
  }
}
