/**
 * The browser-side product extractor (src/lib/scraper.ts): ordered, short-circuiting
 * fallback chains over a parsed document for the title, price, currency and image, the
 * merchant name derived from the URL, the product-page heuristic, and the orchestration
 * that turns a fetch outcome into a `ScrapedProduct`.
 */
module Scraper {
  import opened Common
  import opened Web

  datatype ScrapedProduct = ScrapedProduct(
    title: Option<string>,
    price: Option<real>,
    currency: string,
    imageUrl: Option<string>,
    merchant: Option<string>,
    success: bool,
    error: Option<string>)

  // ---------------------------------------------------------------------------
  // parsePrice
  // ---------------------------------------------------------------------------

  /** The characters of the class `[$€£¥₹,\s]` that the price parser deletes. */
  predicate IsPriceNoise(c: char) {
    c == '$' || c == '\U{20AC}' || c == '\U{00A3}' || c == '\U{00A5}' || c == '\U{20B9}'
    || c == ',' || IsSpace(c)
  }

  /** `text.replace(/[$€£¥₹,\s]/g, '')` */
  function StripPriceNoise(s: string): (r: string)
    ensures |r| <= |s|
    ensures forall i :: 0 <= i < |r| ==> !IsPriceNoise(r[i])
  {
    if s == [] then [] else (if IsPriceNoise(s[0]) then [] else [s[0]]) + StripPriceNoise(s[1..])
  }

  predicate HasDigit(s: string) {
    exists i :: 0 <= i < |s| && IsDigit(s[i])
  }

  predicate AllDigits(s: string) {
    forall i :: 0 <= i < |s| ==> IsDigit(s[i])
  }

  /** Deleting the noise characters never deletes a digit and never creates one. */
  lemma {:induction false} StripKeepsDigits(s: string)
    ensures HasDigit(StripPriceNoise(s)) <==> HasDigit(s)
    decreases |s|
  {
    if s != [] {
      StripKeepsDigits(s[1..]);
      var head := if IsPriceNoise(s[0]) then [] else [s[0]];
      var t := StripPriceNoise(s[1..]);
      assert StripPriceNoise(s) == head + t;
      if HasDigit(s) {
        var i :| 0 <= i < |s| && IsDigit(s[i]);
        if i == 0 {
          assert (head + t)[0] == s[0];
        } else {
          assert IsDigit(s[1..][i - 1]);
          var k :| 0 <= k < |t| && IsDigit(t[k]);
          assert (head + t)[|head| + k] == t[k];
        }
      }
      if HasDigit(head + t) {
        var k :| 0 <= k < |head + t| && IsDigit((head + t)[k]);
        if k >= |head| {
          assert t[k - |head|] == (head + t)[k];
          assert HasDigit(s[1..]);
          var m :| 0 <= m < |s[1..]| && IsDigit(s[1..][m]);
          assert s[m + 1] == s[1..][m];
        }
      }
    }
  }

  /** The index of the first digit of `s`, or `|s|`. */
  function FirstDigit(s: string): (i: nat)
    ensures i <= |s|
    ensures i < |s| ==> IsDigit(s[i])
    ensures forall j :: 0 <= j < i ==> !IsDigit(s[j])
  {
    if s == [] || IsDigit(s[0]) then 0 else 1 + FirstDigit(s[1..])
  }

  /** The length of the run of digits at the front of `s`. */
  function DigitRun(s: string): (n: nat)
    ensures n <= |s|
    ensures AllDigits(s[..n])
    ensures n < |s| ==> !IsDigit(s[n])
  {
    if s != [] && IsDigit(s[0]) then
      var n := 1 + DigitRun(s[1..]);
      assert s[..n] == [s[0]] + s[1..][..n - 1];
      n
    else 0
  }

  /** A match of `\d+\.?\d*`: the integer digits, whether a point follows, the digits after it. */
  datatype NumberToken = NumberToken(whole: string, point: bool, fraction: string)

  function TokenText(t: NumberToken): string {
    t.whole + (if t.point then "." else "") + t.fraction
  }

  /** Digits, the point at `n` and `m` more characters are a prefix of `s`. */
  lemma PointedPrefix(s: string, n: nat, m: nat)
    requires n < |s| && s[n] == '.' && m <= |s| - n - 1
    ensures StartsWith(s, TokenText(NumberToken(s[..n], true, s[n + 1..][..m])))
  {
    assert s[..n] + "." + s[n + 1..][..m] == s[..n + 1 + m];
  }

  /** `s.match(/\d+\.?\d*\/)`: the leftmost match, each part as long as it can be. */
  function MatchNumber(s: string): (t: Option<NumberToken>)
    ensures t.None? <==> !HasDigit(s)
    ensures t.Some? ==>
      && t.value.whole != [] && AllDigits(t.value.whole) && AllDigits(t.value.fraction)
      && (!t.value.point ==> t.value.fraction == [])
      && StartsWith(s[FirstDigit(s)..], TokenText(t.value))
    // maximal: the integer digits stop at a non-digit, a following point is always taken,
    // and the digits after the point stop at a non-digit
    ensures t.Some? ==>
      var r, n := s[FirstDigit(s)..], |t.value.whole|;
      && (n < |r| ==> !IsDigit(r[n]))
      && (t.value.point <==> n < |r| && r[n] == '.')
      && (t.value.point && n + 1 + |t.value.fraction| < |r| ==> !IsDigit(r[n + 1 + |t.value.fraction|]))
  {
    var i := FirstDigit(s);
    if i == |s| then None
    else
      var rest := s[i..];
      var n := DigitRun(rest);
      if n < |rest| && rest[n] == '.' then
        var after := rest[n + 1..];
        var m := DigitRun(after);
        assert m < |after| ==> after[m] == rest[n + 1 + m];
        PointedPrefix(rest, n, m);
        Some(NumberToken(rest[..n], true, after[..m]))
      else
        Some(NumberToken(rest[..n], false, []))
  }

  function DigitValue(c: char): nat
    requires IsDigit(c)
  {
    c as int - '0' as int
  }

  /** The value of a string of decimal digits. */
  function DigitsValue(d: string): nat
    requires AllDigits(d)
    decreases |d|
  {
    if d == [] then 0
    else
      assert AllDigits(d[..|d| - 1]);
      10 * DigitsValue(d[..|d| - 1]) + DigitValue(d[|d| - 1])
  }

  function Pow10(n: nat): (p: nat)
    ensures p >= 1
  {
    if n == 0 then 1 else 10 * Pow10(n - 1)
  }

  /** `parseFloat` of a matched token, taken as an exact decimal. */
  function TokenValue(t: NumberToken): (v: real)
    requires AllDigits(t.whole) && AllDigits(t.fraction)
    ensures v >= DigitsValue(t.whole) as real
  {
    DigitsValue(t.whole) as real + DigitsValue(t.fraction) as real / Pow10(|t.fraction|) as real
  }

  /** parsePrice: delete the noise characters, then read the first `\d+\.?\d*` token. */
  function ParsePrice(text: string): (r: Option<real>)
    ensures r.None? <==> !HasDigit(text)
    ensures r.Some? ==> r.value >= 0.0
  {
    StripKeepsDigits(text);
    match MatchNumber(StripPriceNoise(text))
    case None => None
    case Some(t) => Some(TokenValue(t))
  }

  lemma {:induction false} StripConcat(a: string, b: string)
    ensures StripPriceNoise(a + b) == StripPriceNoise(a) + StripPriceNoise(b)
    decreases |a|
  {
    if a != [] {
      var head := if IsPriceNoise(a[0]) then [] else [a[0]];
      assert (a + b)[0] == a[0];
      assert (a + b)[1..] == a[1..] + b;
      StripConcat(a[1..], b);
      assert StripPriceNoise(a + b) == head + StripPriceNoise(a[1..] + b);
      assert StripPriceNoise(a) == head + StripPriceNoise(a[1..]);
    } else {
      assert a + b == b;
    }
  }

  /** Text with no noise character is left as it is. */
  lemma {:induction false} StripClean(s: string)
    requires forall i :: 0 <= i < |s| ==> !IsPriceNoise(s[i])
    ensures StripPriceNoise(s) == s
    decreases |s|
  {
    if s != [] {
      StripClean(s[1..]);
      assert s == [s[0]] + s[1..];
    }
  }

  /** A character that is not noise is kept, in place, between the stripped text before it and
      the stripped text after it. */
  lemma StripKept(before: string, c: char, after: string)
    requires !IsPriceNoise(c)
    ensures StripPriceNoise(before + ([c] + after)) == StripPriceNoise(before) + [c] + StripPriceNoise(after)
  {
    StripConcat(before, [c] + after);
    StripCons(c, after);
    var x, y := StripPriceNoise(before), StripPriceNoise(after);
    assert StripPriceNoise([c] + after) == [c] + y;
    assert x + ([c] + y) == x + [c] + y;
  }

  /** A noise character is dropped and the text around it is stripped as it stands. */
  lemma StripDropped(before: string, c: char, after: string)
    requires IsPriceNoise(c)
    ensures StripPriceNoise(before + ([c] + after)) == StripPriceNoise(before) + StripPriceNoise(after)
  {
    StripConcat(before, [c] + after);
    StripCons(c, after);
  }

  lemma StripCons(c: char, t: string)
    ensures StripPriceNoise([c] + t) == (if IsPriceNoise(c) then [] else [c]) + StripPriceNoise(t)
  {
    assert ([c] + t)[1..] == t;
  }

  lemma {:induction false} DigitRunIs(s: string, n: nat)
    requires n <= |s| && AllDigits(s[..n]) && (n < |s| ==> !IsDigit(s[n]))
    ensures DigitRun(s) == n
    decreases n
  {
    if n > 0 {
      assert s[0] == s[..n][0];
      assert s[1..][..n - 1] == s[..n][1..];
      DigitRunIs(s[1..], n - 1);
    }
  }

  lemma {:induction false} FirstDigitIs(s: string, k: nat)
    requires k < |s| && IsDigit(s[k]) && forall j :: 0 <= j < k ==> !IsDigit(s[j])
    ensures FirstDigit(s) == k
    decreases k
  {
    if k > 0 {
      forall j | 0 <= j < k - 1 ensures !IsDigit(s[1..][j]) {
        assert s[1..][j] == s[j + 1];
      }
      FirstDigitIs(s[1..], k - 1);
    }
  }

  /** Behind digit-free text `p`, the first digit is where `rest` starts. */
  lemma FirstDigitAfter(s: string, p: string, rest: string)
    requires s == p + rest && rest != [] && IsDigit(rest[0]) && !HasDigit(p)
    ensures FirstDigit(s) == |p| && s[|p|..] == rest
  {
    forall j | 0 <= j < |p| ensures !IsDigit(s[j]) {
      assert s[j] == p[j];
    }
    assert s[|p|] == rest[0];
    FirstDigitIs(s, |p|);
  }

  /** The digit runs of digits `w`, a point, digits `f` and a tail that starts with no digit. */
  lemma PointedRuns(rest: string, w: string, f: string, tail: string)
    requires rest == w + "." + f + tail
    requires w != [] && AllDigits(w) && AllDigits(f)
    requires tail != [] ==> !IsDigit(tail[0])
    ensures DigitRun(rest) == |w| && rest[..|w|] == w && |w| < |rest| && rest[|w|] == '.'
    ensures DigitRun(rest[|w| + 1..]) == |f| && rest[|w| + 1..][..|f|] == f
  {
    PointedSplit(rest, w, f, tail);
    WholeRun(rest, w, ['.'] + (f + tail));
    WholeRun(f + tail, f, tail);
  }

  lemma PointedSplit(rest: string, w: string, f: string, tail: string)
    requires rest == w + "." + f + tail
    ensures rest == w + (['.'] + (f + tail)) && rest[|w| + 1..] == f + tail
  {
    assert rest == w + (['.'] + (f + tail));
  }

  /** Digits `w` followed by text that starts with no digit have a digit run of `|w|`. */
  lemma WholeRun(s: string, w: string, tail: string)
    requires s == w + tail && AllDigits(w) && (tail != [] ==> !IsDigit(tail[0]))
    ensures DigitRun(s) == |w| && s[..|w|] == w && (tail != [] ==> s[|w|] == tail[0])
  {
    assert s[..|w|] == w;
    assert tail != [] ==> s[|w|] == tail[0];
    DigitRunIs(s, |w|);
  }

  lemma MatchPointed(s: string, w: string, f: string, tail: string)
    requires s[FirstDigit(s)..] == w + "." + f + tail
    requires w != [] && AllDigits(w) && AllDigits(f)
    requires tail != [] ==> !IsDigit(tail[0])
    ensures MatchNumber(s) == Some(NumberToken(w, true, f))
  {
    PointedRuns(s[FirstDigit(s)..], w, f, tail);
  }

  lemma MatchWhole(s: string, w: string, tail: string)
    requires s[FirstDigit(s)..] == w + tail
    requires w != [] && AllDigits(w)
    requires tail != [] ==> !IsDigit(tail[0]) && tail[0] != '.'
    ensures MatchNumber(s) == Some(NumberToken(w, false, []))
  {
    var rest := s[FirstDigit(s)..];
    assert rest[..|w|] == w;
    assert |w| < |rest| ==> rest[|w|] == tail[0];
    DigitRunIs(rest, |w|);
  }

  /** The match of `\d+\.?\d*` in digit-free text `p`, then the token, then text that cannot
      extend the token, is that token. */
  lemma MatchNumberIs(s: string, p: string, w: string, point: bool, f: string, tail: string)
    requires s == p + TokenText(NumberToken(w, point, f)) + tail
    requires !HasDigit(p) && w != [] && AllDigits(w) && AllDigits(f) && (!point ==> f == [])
    requires tail != [] ==> !IsDigit(tail[0]) && (point || tail[0] != '.')
    ensures MatchNumber(s) == Some(NumberToken(w, point, f))
  {
    var rest := TokenText(NumberToken(w, point, f)) + tail;
    assert s == p + rest;
    assert rest[0] == w[0];
    FirstDigitAfter(s, p, rest);
    if point {
      assert rest == w + "." + f + tail;
      MatchPointed(s, w, f, tail);
    } else {
      assert rest == w + tail;
      MatchWhole(s, w, tail);
    }
  }

  /** The price of any text is the exact value of its first number: after the noise is
      deleted, digit-free text `p`, the digits `w`, optionally a point and the digits `f`,
      then text that cannot extend the number. */
  lemma ParsePriceValue(text: string, p: string, w: string, point: bool, f: string, tail: string)
    requires StripPriceNoise(text) == p + TokenText(NumberToken(w, point, f)) + tail
    requires !HasDigit(p) && w != [] && AllDigits(w) && AllDigits(f) && (!point ==> f == [])
    requires tail != [] ==> !IsDigit(tail[0]) && (point || tail[0] != '.')
    ensures ParsePrice(text).Some?
    ensures ParsePrice(text).value == DigitsValue(w) as real + DigitsValue(f) as real / Pow10(|f|) as real
  {
    ParsePriceToken(text, p, w, point, f, tail);
    TokenValueOf(w, point, f);
  }

  lemma ParsePriceToken(text: string, p: string, w: string, point: bool, f: string, tail: string)
    requires StripPriceNoise(text) == p + TokenText(NumberToken(w, point, f)) + tail
    requires !HasDigit(p) && w != [] && AllDigits(w) && AllDigits(f) && (!point ==> f == [])
    requires tail != [] ==> !IsDigit(tail[0]) && (point || tail[0] != '.')
    ensures ParsePrice(text) == Some(TokenValue(NumberToken(w, point, f)))
  {
    MatchNumberIs(StripPriceNoise(text), p, w, point, f, tail);
    ParseOfMatch(text, NumberToken(w, point, f));
  }

  lemma TokenValueOf(w: string, point: bool, f: string)
    requires AllDigits(w) && AllDigits(f)
    ensures TokenValue(NumberToken(w, point, f))
      == DigitsValue(w) as real + DigitsValue(f) as real / Pow10(|f|) as real
  {
  }

  lemma ParseOfMatch(text: string, t: NumberToken)
    requires AllDigits(t.whole) && AllDigits(t.fraction)
    requires MatchNumber(StripPriceNoise(text)) == Some(t)
    ensures ParsePrice(text) == Some(TokenValue(t))
  {
  }

  const EuroPrice := "\U{20AC}129,99"

  /** Noise, digits, noise, digits: only the digits are left. */
  lemma StripNoiseAround(a: string, d: string, b: string, e: string)
    requires StripPriceNoise(a) == [] && StripPriceNoise(b) == []
    requires forall i :: 0 <= i < |d| ==> !IsPriceNoise(d[i])
    requires forall i :: 0 <= i < |e| ==> !IsPriceNoise(e[i])
    ensures StripPriceNoise(a + d + b + e) == d + e
  {
    var x := a + d;
    var y := x + b;
    StripClean(d);
    StripConcat(a, d);
    assert StripPriceNoise(x) == d;
    StripConcat(x, b);
    assert StripPriceNoise(y) == d;
    StripClean(e);
    StripConcat(y, e);
  }

  /** The noise is deleted from "€129,99", leaving "12999". */
  lemma StripEuroExample()
    ensures StripPriceNoise(EuroPrice) == "12999"
  {
    var euro, whole, comma, cents := "\U{20AC}", "129", ",", "99";
    assert StripPriceNoise(euro) == [];
    assert StripPriceNoise(comma) == [];
    StripNoiseAround(euro, whole, comma, cents);
    assert euro + whole + comma + cents == EuroPrice;
  }

  /** A text whose noise-free form is a plain run of digits is priced at that integer. */
  lemma ParsePriceOfDigits(text: string, d: string)
    requires StripPriceNoise(text) == d && d != [] && AllDigits(d)
    ensures ParsePrice(text) == Some(DigitsValue(d) as real)
  {
    assert FirstDigit(d) == 0;
    assert d[0..] == d;
    DigitRunIs(d, |d|);
    assert d[..|d|] == d;
    assert MatchNumber(d) == Some(NumberToken(d, false, ""));
  }

  lemma ValueEuroExample()
    ensures DigitsValue("12999") == 12999
  {
    assert "12999"[..4] == "1299" && "1299"[..3] == "129" && "129"[..2] == "12" && "12"[..1] == "1" && "1"[..0] == "";
  }

  /** A comma is deleted, not read as a decimal separator: "€129,99" is 12999. */
  lemma ParsePriceEuroComma()
    ensures ParsePrice(EuroPrice) == Some(12999.0)
  {
    StripEuroExample();
    ParsePriceOfDigits(EuroPrice, "12999");
    ValueEuroExample();
  }

  const DollarPrice := "$123.45"
  const SuffixedPrice := "123.45 USD"

  lemma AmountIsClean()
    ensures StripPriceNoise("123.45") == "123.45"
  {
    StripClean("123.45");
  }

  lemma CodeIsClean()
    ensures StripPriceNoise("USD") == "USD"
  {
    StripClean("USD");
  }

  lemma SignIsNoise()
    ensures StripPriceNoise("$") == []
  {
  }

  lemma SpaceIsNoise()
    ensures StripPriceNoise(" ") == []
  {
  }

  lemma StripDollarJoined()
    ensures StripPriceNoise("$" + "123.45") == "123.45"
  {
    SignIsNoise();
    AmountIsClean();
    StripConcat("$", "123.45");
  }

  /** "$123.45" loses its dollar sign. */
  lemma StripDollarExample()
    ensures StripPriceNoise(DollarPrice) == "123.45"
  {
    StripDollarJoined();
    assert "$" + "123.45" == DollarPrice;
  }

  lemma StripSpacedJoined()
    ensures StripPriceNoise(" " + "USD") == "USD"
  {
    SpaceIsNoise();
    CodeIsClean();
    StripConcat(" ", "USD");
  }

  lemma StripSpacedCode()
    ensures StripPriceNoise(" USD") == "USD"
  {
    StripSpacedJoined();
    assert " " + "USD" == " USD";
  }

  lemma StripSuffixedJoined()
    ensures StripPriceNoise("123.45" + " USD") == "123.45" + "USD"
  {
    AmountIsClean();
    StripSpacedCode();
    StripConcat("123.45", " USD");
  }

  /** "123.45 USD" loses its space and keeps the letters. */
  lemma StripSuffixedExample()
    ensures StripPriceNoise(SuffixedPrice) == "123.45" + "USD"
  {
    StripSuffixedJoined();
    assert "123.45" + " USD" == SuffixedPrice;
  }

  /** "123.45" is the token with integer digits "123" and fraction digits "45". */
  lemma AmountToken()
    ensures TokenText(NumberToken("123", true, "45")) == "123.45"
  {
  }

  /** That token's value is 123.45. */
  lemma AmountValue()
    ensures TokenValue(NumberToken("123", true, "45")) == 123.45
  {
    assert "123"[..2] == "12" && "12"[..1] == "1" && "1"[..0] == "";
    assert "45"[..1] == "4" && "4"[..0] == "";
  }

  /** Any text that strips to the amount followed by `tail` is priced at the amount's token. */
  lemma ParseAmountThen(text: string, tail: string)
    requires StripPriceNoise(text) == "123.45" + tail
    requires tail != [] ==> !IsDigit(tail[0])
    ensures ParsePrice(text) == Some(TokenValue(NumberToken("123", true, "45")))
  {
    AmountTokenThen(tail);
    AmountDigits();
    ParsePriceToken(text, "", "123", true, "45", tail);
  }

  lemma AmountTokenThen(tail: string)
    ensures "123.45" + tail == "" + TokenText(NumberToken("123", true, "45")) + tail
  {
    AmountToken();
  }

  lemma AmountDigits()
    ensures !HasDigit("") && "123" != [] && AllDigits("123") && AllDigits("45")
  {
  }

  lemma ParseDollarToken()
    ensures ParsePrice(DollarPrice) == Some(TokenValue(NumberToken("123", true, "45")))
  {
    StripDollarExample();
    assert "123.45" == "123.45" + "";
    ParseAmountThen(DollarPrice, "");
  }

  /** "$123.45" is 123.45. */
  lemma ParsePriceDollar()
    ensures ParsePrice(DollarPrice) == Some(123.45)
  {
    ParseDollarToken();
    AmountValue();
  }

  lemma ParseSuffixedToken()
    ensures ParsePrice(SuffixedPrice) == Some(TokenValue(NumberToken("123", true, "45")))
  {
    StripSuffixedExample();
    ParseAmountThen(SuffixedPrice, "USD");
  }

  /** "123.45 USD" is 123.45: the currency code after the number is ignored. */
  lemma ParsePriceSuffixed()
    ensures ParsePrice(SuffixedPrice) == Some(123.45)
  {
    ParseSuffixedToken();
    AmountValue();
  }

  const NoNumbers := "no numbers here"

  /** Text made of letters and spaces has no digit. */
  lemma LettersHaveNoDigit(s: string)
    requires forall i :: 0 <= i < |s| ==> s[i] == ' ' || 'a' <= s[i] <= 'z'
    ensures !HasDigit(s)
  {
  }

  lemma ParsePriceNoDigits()
    ensures ParsePrice(NoNumbers) == None
  {
    LettersHaveNoDigit(NoNumbers);
  }

  // ---------------------------------------------------------------------------
  // extractTitle
  // ---------------------------------------------------------------------------

  /** Every character of `s[a..b]` is white space. */
  predicate SpaceBetween(s: string, a: nat, b: nat)
    requires a <= b <= |s|
  {
    forall m :: a <= m < b ==> IsSpace(s[m])
  }

  /** No character of `s[a..]` is a line terminator, so `.+$` can run to the end. */
  predicate NoLineTerminatorFrom(s: string, a: nat)
    requires a <= |s|
  {
    forall m :: a <= m < |s| ==> !IsLineTerminator(s[m])
  }

  /** `\s+.+$` matches `s` from position `p` to its end. */
  predicate TailMatchAt(s: string, p: nat) {
    exists k :: p < k < |s| && SpaceBetween(s, p, k) && NoLineTerminatorFrom(s, k)
  }

  /** `\s+[|-]\s+.+$` matches `s` from position `i` to its end. */
  predicate SuffixMatchAt(s: string, i: nat) {
    exists j :: i < j < |s| && SpaceBetween(s, i, j) && (s[j] == '|' || s[j] == '-') && TailMatchAt(s, j + 1)
  }

  /** The leftmost position at or after `from` where the title-suffix pattern matches. */
  function FirstSuffixMatch(s: string, from: nat): (r: Option<nat>)
    requires from <= |s|
    ensures r.Some? ==> from <= r.value < |s| && SuffixMatchAt(s, r.value)
    ensures forall i :: from <= i < |s| && (r.None? || i < r.value) ==> !SuffixMatchAt(s, i)
    decreases |s| - from
  {
    if from == |s| then None
    else if SuffixMatchAt(s, from) then Some(from)
    else FirstSuffixMatch(s, from + 1)
  }

  /** A match may always be extended by a white-space character on its left. */
  lemma ExtendMatchLeft(s: string, i: nat)
    requires 0 < i < |s| && SuffixMatchAt(s, i) && IsSpace(s[i - 1])
    ensures SuffixMatchAt(s, i - 1)
  {
    var j :| i < j < |s| && SpaceBetween(s, i, j) && (s[j] == '|' || s[j] == '-') && TailMatchAt(s, j + 1);
    assert SpaceBetween(s, i - 1, j);
  }

  /** The leftmost match starts with white space that does not continue to its left. */
  lemma LeftmostMatchBoundary(s: string, i: nat)
    requires i < |s| && SuffixMatchAt(s, i)
    requires forall k :: 0 <= k < i ==> !SuffixMatchAt(s, k)
    ensures IsSpace(s[i]) && (i > 0 ==> !IsSpace(s[i - 1]))
  {
    var j :| i < j < |s| && SpaceBetween(s, i, j) && (s[j] == '|' || s[j] == '-') && TailMatchAt(s, j + 1);
    assert IsSpace(s[i]);
    if i > 0 && IsSpace(s[i - 1]) {
      ExtendMatchLeft(s, i);
    }
  }

  /**
   * `s.replace(/\s+[|-]\s+.+$/, '')`: everything from the leftmost match of the
   * pattern to the end is deleted. On a trimmed, non-empty title the result is again
   * trimmed and non-empty.
   */
  function StripTitleSuffix(s: string): (r: string)
    ensures StartsWith(s, r)
    ensures r == s <==> forall i :: 0 <= i < |s| ==> !SuffixMatchAt(s, i)
    ensures r != s ==> SuffixMatchAt(s, |r|) && forall i :: 0 <= i < |r| ==> !SuffixMatchAt(s, i)
    ensures s != [] && !IsSpace(s[0]) && !IsSpace(s[|s| - 1]) ==>
              r != [] && !IsSpace(r[0]) && !IsSpace(r[|r| - 1])
  {
    match FirstSuffixMatch(s, 0)
    case None => s
    case Some(i) =>
      LeftmostMatchBoundary(s, i);
      s[..i]
  }

  /** The pattern cannot start at a character that is not white space. */
  lemma NoMatchAtNonSpace(s: string, i: nat)
    requires i < |s| && !IsSpace(s[i])
    ensures !SuffixMatchAt(s, i)
  {
  }

  const ShopTitle := "Widget | Shop"

  /** The title is cut at the leftmost match of the pattern. */
  lemma StripAtLeftmost(s: string, i: nat)
    requires i < |s| && SuffixMatchAt(s, i)
    requires forall k :: 0 <= k < i ==> !SuffixMatchAt(s, k)
    ensures StripTitleSuffix(s) == s[..i]
  {
    var r := StripTitleSuffix(s);
    assert r != s;
    assert |r| == i;
  }

  /** In "Widget | Shop" the pattern first matches at the space before the bar. */
  lemma ShopTitleMatch()
    ensures SuffixMatchAt(ShopTitle, 6)
    ensures forall k :: 0 <= k < 6 ==> !SuffixMatchAt(ShopTitle, k)
  {
    var s := ShopTitle;
    forall i | 0 <= i < 6
      ensures !SuffixMatchAt(s, i)
    {
      NoMatchAtNonSpace(s, i);
    }
    assert TailMatchAt(s, 8) by {
      assert SpaceBetween(s, 8, 9);
      assert NoLineTerminatorFrom(s, 9);
    }
    assert SpaceBetween(s, 6, 7);
  }

  /** The store name after " | " is dropped from a page title. */
  lemma TitleSuffixExample()
    ensures StripTitleSuffix(ShopTitle) == "Widget"
  {
    ShopTitleMatch();
    StripAtLeftmost(ShopTitle, 6);
  }

  const OgTitle := "meta[property=\"og:title\"]"
  const TwitterTitle := "meta[name=\"twitter:title\"]"
  const TitleTag := "title"
  const H1 := "h1"

  /** `hostname.replace(/^www\./, '')` */
  function StripWww(host: string): (r: string)
    ensures StartsWith(host, "www.") ==> "www." + r == host
    ensures !StartsWith(host, "www.") ==> r == host
  {
    if StartsWith(host, "www.") then host[4..] else host
  }

  /** `v?.trim()` is truthy. */
  predicate Filled(v: Option<string>) {
    v.Some? && NonBlank(v.value)
  }

  /** The title used when the document offers none: it names the host, or gives up. */
  function DomainTitle(api: UrlApi, url: string): string {
    match api.parse(url)
    case None => "Unknown Product"
    case Some(u) => "Product from " + StripWww(u.hostname)
  }

  /**
   * extractTitle: the first filled value among og:title, twitter:title, `<title>` (with
   * its " | Shop" / " - Shop" suffix removed) and the first h1, trimmed; else a title
   * naming the host. The result is never empty and never starts with white space.
   */
  function ExtractTitle(doc: Document, api: UrlApi, url: string): (r: string)
    ensures r != [] && !IsSpace(r[0])
    ensures Filled(AttrOf(doc, OgTitle, "content")) ==> r == Trim(AttrOf(doc, OgTitle, "content").value)
    ensures (!Filled(AttrOf(doc, OgTitle, "content")) && Filled(AttrOf(doc, TwitterTitle, "content"))) ==>
              r == Trim(AttrOf(doc, TwitterTitle, "content").value)
    ensures (!Filled(AttrOf(doc, OgTitle, "content")) && !Filled(AttrOf(doc, TwitterTitle, "content"))
             && Filled(TextOf(doc, TitleTag))) ==>
              r == StripTitleSuffix(Trim(TextOf(doc, TitleTag).value))
    ensures (!Filled(AttrOf(doc, OgTitle, "content")) && !Filled(AttrOf(doc, TwitterTitle, "content"))
             && !Filled(TextOf(doc, TitleTag)) && Filled(TextOf(doc, H1))) ==>
              r == Trim(TextOf(doc, H1).value)
    ensures (!Filled(AttrOf(doc, OgTitle, "content")) && !Filled(AttrOf(doc, TwitterTitle, "content"))
             && !Filled(TextOf(doc, TitleTag)) && !Filled(TextOf(doc, H1))) ==>
              r == DomainTitle(api, url)
  {
    var og := AttrOf(doc, OgTitle, "content");
    var twitter := AttrOf(doc, TwitterTitle, "content");
    var page := TextOf(doc, TitleTag);
    var h1 := TextOf(doc, H1);
    if Filled(og) then Trim(og.value)
    else if Filled(twitter) then Trim(twitter.value)
    else if Filled(page) then StripTitleSuffix(Trim(page.value))
    else if Filled(h1) then Trim(h1.value)
    else
      var d := DomainTitle(api, url);
      assert d[0] == 'P' || d[0] == 'U';
      d
  }

  // ---------------------------------------------------------------------------
  // extractPrice
  // ---------------------------------------------------------------------------

  const OgPriceAmount := "meta[property=\"og:price:amount\"]"
  const ProductPriceAmount := "meta[property=\"product:price:amount\"]"
  const ItempropPrice := "[itemprop=\"price\"]"
  const PriceSelectors: seq<string> := [".price", "[class*=\"price\"]", "[id*=\"price\"]", "span[class*=\"Price\"]"]

  /** What one candidate string yields: `if (s) { const p = parsePrice(s); if (p !== null) return p }`. */
  function CandidatePrice(c: Option<string>): Option<real> {
    if Truthy(c) then ParsePrice(c.value) else None
  }

  /** The price of the first candidate that parses. */
  function FirstPrice(cands: seq<Option<string>>): Option<real> {
    if cands == [] then None
    else if CandidatePrice(cands[0]).Some? then CandidatePrice(cands[0])
    else FirstPrice(cands[1..])
  }

  /** FirstPrice is null exactly when no candidate parses. */
  lemma {:induction false} FirstPriceNone(cands: seq<Option<string>>)
    ensures FirstPrice(cands).None? <==> forall k :: 0 <= k < |cands| ==> CandidatePrice(cands[k]).None?
  {
    if cands != [] && CandidatePrice(cands[0]).None? {
      FirstPriceNone(cands[1..]);
      assert forall k :: 1 <= k < |cands| ==> cands[k] == cands[1..][k - 1];
    }
  }

  /** When `cands[k]` is the first candidate that parses, its price is the one found. */
  lemma {:induction false} FirstPriceAt(cands: seq<Option<string>>, k: nat)
    requires k < |cands| && CandidatePrice(cands[k]).Some?
    requires forall j :: 0 <= j < k ==> CandidatePrice(cands[j]).None?
    ensures FirstPrice(cands) == CandidatePrice(cands[k])
    decreases k
  {
    if k > 0 {
      var tail := cands[1..];
      assert CandidatePrice(cands[0]).None?;
      assert tail[k - 1] == cands[k];
      forall j | 0 <= j < k - 1 ensures CandidatePrice(tail[j]).None? {
        assert tail[j] == cands[j + 1];
      }
      FirstPriceAt(tail, k - 1);
    }
  }

  /** The first candidate decides when it parses; otherwise the search moves on. */
  lemma FirstPriceCons(cands: seq<Option<string>>)
    requires cands != []
    ensures FirstPrice(cands)
            == if CandidatePrice(cands[0]).Some? then CandidatePrice(cands[0]) else FirstPrice(cands[1..])
  {
  }

  /** `og:price:amount || product:price:amount` content. */
  function MetaPrice(doc: Document): Option<string> {
    Or(AttrOf(doc, OgPriceAmount, "content"), AttrOf(doc, ProductPriceAmount, "content"))
  }

  /** The schema.org price: content attribute, else text. */
  function SchemaPrice(doc: Document): Option<string> {
    Or(AttrOf(doc, ItempropPrice, "content"), TextOf(doc, ItempropPrice))
  }

  /** The `textContent` of the element each selector finds, in order. */
  function TextCandidates(doc: Document, selectors: seq<string>): (r: seq<Option<string>>)
    ensures |r| == |selectors|
  {
    if selectors == [] then [] else [TextOf(doc, selectors[0])] + TextCandidates(doc, selectors[1..])
  }

  /** The strings extractPrice tries, in the order it tries them. */
  function PriceCandidates(doc: Document): seq<Option<string>> {
    [MetaPrice(doc), SchemaPrice(doc)] + TextCandidates(doc, PriceSelectors)
  }

  /**
   * extractPrice: the first candidate that parses wins. In particular a parseable
   * og:price:amount (else product:price:amount) wins over every other selector.
   */
  method ExtractPrice(doc: Document) returns (price: Option<real>)
    ensures price == FirstPrice(PriceCandidates(doc))
    ensures CandidatePrice(MetaPrice(doc)).Some? ==> price == CandidatePrice(MetaPrice(doc))
  {
    var metaPrice := MetaPrice(doc);
    FirstPriceCons(PriceCandidates(doc));
    if Truthy(metaPrice) {
      var p := ParsePrice(metaPrice.value);
      if p.Some? {
        return p;
      }
    }
    var schemaPrice := SchemaPrice(doc);
    var rest := PriceCandidates(doc)[1..];
    assert rest[0] == schemaPrice && rest[1..] == TextCandidates(doc, PriceSelectors);
    FirstPriceCons(rest);
    if Truthy(schemaPrice) {
      var p := ParsePrice(schemaPrice.value);
      if p.Some? {
        return p;
      }
    }
    for i := 0 to |PriceSelectors|
      invariant FirstPrice(PriceCandidates(doc)) == FirstPrice(TextCandidates(doc, PriceSelectors[i..]))
    {
      assert PriceSelectors[i..][1..] == PriceSelectors[i + 1..];
      FirstPriceCons(TextCandidates(doc, PriceSelectors[i..]));
      var element := Query(doc, PriceSelectors[i]);
      if element.Some? && element.value.textContent != "" {
        var p := ParsePrice(element.value.textContent);
        if p.Some? {
          return p;
        }
      }
    }
    return None;
  }

  // ---------------------------------------------------------------------------
  // extractCurrency
  // ---------------------------------------------------------------------------

  const OgPriceCurrency := "meta[property=\"og:price:currency\"]"
  const ProductPriceCurrency := "meta[property=\"product:price:currency\"]"
  const ItempropPriceCurrency := "[itemprop=\"priceCurrency\"]"

  function MetaCurrency(doc: Document): Option<string> {
    Or(AttrOf(doc, OgPriceCurrency, "content"), AttrOf(doc, ProductPriceCurrency, "content"))
  }

  /**
   * extractCurrency: the meta currency, else the schema.org one, upper-cased; "USD" when
   * both are missing or empty. The result is never empty and has no lower-case letter.
   */
  function ExtractCurrency(doc: Document): (r: string)
    ensures r != [] && forall i :: 0 <= i < |r| ==> !IsLowerAscii(r[i])
    ensures Truthy(MetaCurrency(doc)) ==> r == ToUpper(MetaCurrency(doc).value)
    ensures !Truthy(MetaCurrency(doc)) && Truthy(AttrOf(doc, ItempropPriceCurrency, "content")) ==>
      r == ToUpper(AttrOf(doc, ItempropPriceCurrency, "content").value)
    ensures !Truthy(MetaCurrency(doc)) && !Truthy(AttrOf(doc, ItempropPriceCurrency, "content")) ==>
      r == "USD"
  {
    var meta := MetaCurrency(doc);
    var schema := AttrOf(doc, ItempropPriceCurrency, "content");
    if Truthy(meta) then ToUpper(meta.value)
    else if Truthy(schema) then ToUpper(schema.value)
    else "USD"
  }

  // ---------------------------------------------------------------------------
  // makeAbsoluteUrl and extractImage
  // ---------------------------------------------------------------------------

  predicate IsAbsoluteHttp(s: string) {
    StartsWith(s, "http://") || StartsWith(s, "https://")
  }

  /**
   * makeAbsoluteUrl: an http(s) URL passes through; otherwise the URL is resolved
   * against the base URL's origin, and any failure returns the input unchanged.
   */
  function MakeAbsoluteUrl(api: UrlApi, urlStr: string, baseUrl: string): (r: string)
    ensures IsAbsoluteHttp(urlStr) ==> r == urlStr
    ensures r == urlStr || (api.parse(baseUrl).Some? && api.resolve(urlStr, api.parse(baseUrl).value.origin) == Some(r))
    ensures !IsAbsoluteHttp(urlStr) && api.parse(baseUrl).Some? && api.resolve(urlStr, api.parse(baseUrl).value.origin).Some? ==>
      Some(r) == api.resolve(urlStr, api.parse(baseUrl).value.origin)
  {
    if IsAbsoluteHttp(urlStr) then urlStr
    else
      match api.parse(baseUrl)
      case None => urlStr
      case Some(base) =>
        match api.resolve(urlStr, base.origin)
        case None => urlStr
        case Some(href) => href
  }

  /** The first candidate that is a non-empty string. */
  function FirstTruthy(cands: seq<Option<string>>): Option<string> {
    if cands == [] then None
    else if Truthy(cands[0]) then cands[0]
    else FirstTruthy(cands[1..])
  }

  /** Nothing is found exactly when every candidate is missing or empty; what is found is non-empty. */
  lemma {:induction false} FirstTruthyNone(cands: seq<Option<string>>)
    ensures FirstTruthy(cands).None? <==> forall k :: 0 <= k < |cands| ==> !Truthy(cands[k])
    ensures FirstTruthy(cands).Some? ==> Truthy(FirstTruthy(cands))
  {
    if cands != [] && !Truthy(cands[0]) {
      FirstTruthyNone(cands[1..]);
      assert forall k :: 1 <= k < |cands| ==> cands[k] == cands[1..][k - 1];
    }
  }

  /** When `cands[k]` is the first non-empty candidate, it is the one found. */
  lemma {:induction false} FirstTruthyAt(cands: seq<Option<string>>, k: nat)
    requires k < |cands| && Truthy(cands[k])
    requires forall j :: 0 <= j < k ==> !Truthy(cands[j])
    ensures FirstTruthy(cands) == cands[k]
    decreases k
  {
    if k > 0 {
      var tail := cands[1..];
      assert !Truthy(cands[0]);
      assert tail[k - 1] == cands[k];
      forall j | 0 <= j < k - 1 ensures !Truthy(tail[j]) {
        assert tail[j] == cands[j + 1];
      }
      FirstTruthyAt(tail, k - 1);
    }
  }

  const OgImage := "meta[property=\"og:image\"]"
  const TwitterImage := "meta[name=\"twitter:image\"]"
  const ItempropImage := "[itemprop=\"image\"]"
  const ImageSelectors: seq<string> :=
    [".product-image img", "[class*=\"product\"] img", "img[alt*=\"product\" i]", "img[alt*=\"item\" i]"]

  /** `img.getAttribute('src') || img.getAttribute('data-src')` of the element found, if any. */
  function ImageSource(doc: Document, selector: string): Option<string> {
    match Query(doc, selector)
    case None => None
    case Some(img) => Or(GetAttribute(img, "src"), GetAttribute(img, "data-src"))
  }

  function SourceCandidates(doc: Document, selectors: seq<string>): (r: seq<Option<string>>)
    ensures |r| == |selectors|
  {
    if selectors == [] then [] else [ImageSource(doc, selectors[0])] + SourceCandidates(doc, selectors[1..])
  }

  /** The strings extractImage tries, in the order it tries them. */
  function ImageCandidates(doc: Document): seq<Option<string>> {
    [AttrOf(doc, OgImage, "content")]
    + ([AttrOf(doc, TwitterImage, "content")]
    + ([Or(AttrOf(doc, ItempropImage, "content"), AttrOf(doc, ItempropImage, "src"))]
    + SourceCandidates(doc, ImageSelectors)))
  }

  /** One step of FirstTruthy. */
  lemma FirstTruthyCons(c: Option<string>, rest: seq<Option<string>>)
    ensures FirstTruthy([c] + rest) == if Truthy(c) then c else FirstTruthy(rest)
  {
    assert ([c] + rest)[0] == c;
    assert ([c] + rest)[1..] == rest;
  }

  function Absolutize(api: UrlApi, found: Option<string>, baseUrl: string): Option<string> {
    match found
    case None => None
    case Some(s) => Some(MakeAbsoluteUrl(api, s, baseUrl))
  }

  /** extractImage: the first image URL found, made absolute; None when nothing is found. */
  method ExtractImage(doc: Document, api: UrlApi, baseUrl: string) returns (image: Option<string>)
    ensures image == Absolutize(api, FirstTruthy(ImageCandidates(doc)), baseUrl)
    ensures image.None? <==> forall k :: 0 <= k < |ImageCandidates(doc)| ==> !Truthy(ImageCandidates(doc)[k])
  {
    var ogImage := AttrOf(doc, OgImage, "content");
    var twitterImage := AttrOf(doc, TwitterImage, "content");
    var schemaImage := Or(AttrOf(doc, ItempropImage, "content"), AttrOf(doc, ItempropImage, "src"));
    var sources := SourceCandidates(doc, ImageSelectors);
    FirstTruthyNone(ImageCandidates(doc));
    FirstTruthyCons(schemaImage, sources);
    FirstTruthyCons(twitterImage, [schemaImage] + sources);
    FirstTruthyCons(ogImage, [twitterImage] + ([schemaImage] + sources));
    if Truthy(ogImage) {
      return Some(MakeAbsoluteUrl(api, ogImage.value, baseUrl));
    }
    if Truthy(twitterImage) {
      return Some(MakeAbsoluteUrl(api, twitterImage.value, baseUrl));
    }
    if Truthy(schemaImage) {
      return Some(MakeAbsoluteUrl(api, schemaImage.value, baseUrl));
    }
    for i := 0 to |ImageSelectors|
      invariant FirstTruthy(ImageCandidates(doc)) == FirstTruthy(SourceCandidates(doc, ImageSelectors[i..]))
    {
      assert ImageSelectors[i..][1..] == ImageSelectors[i + 1..];
      FirstTruthyCons(ImageSource(doc, ImageSelectors[i]), SourceCandidates(doc, ImageSelectors[i + 1..]));
      var img := Query(doc, ImageSelectors[i]);
      if img.Some? {
        var src := Or(GetAttribute(img.value, "src"), GetAttribute(img.value, "data-src"));
        if Truthy(src) {
          return Some(MakeAbsoluteUrl(api, src.value, baseUrl));
        }
      }
    }
    return None;
  }

  // ---------------------------------------------------------------------------
  // extractMerchant
  // ---------------------------------------------------------------------------

  /** `s.split('.')[0]` */
  function FirstLabel(s: string): (r: string)
    ensures StartsWith(s, r) && '.' !in r
    ensures |r| < |s| ==> s[|r|] == '.'
  {
    s[..IndexOf(s, '.')]
  }

  /** The host label the merchant is named after: no leading "www.", up to the first dot. */
  function Domain(host: string): string {
    FirstLabel(StripWww(host))
  }

  /** `d.charAt(0).toUpperCase() + d.slice(1)` */
  function Capitalize(d: string): (r: string)
    ensures |r| == |d|
    ensures r != [] ==> !IsLowerAscii(r[0]) && r[1..] == d[1..]
    ensures '.' !in d ==> '.' !in r
  {
    if d == [] then [] else [UpperChar(d[0])] + d[1..]
  }

  const KnownMerchants: map<string, string> := map[
    "amazon" := "Amazon", "ebay" := "eBay", "etsy" := "Etsy",
    "walmart" := "Walmart", "target" := "Target", "bestbuy" := "Best Buy"]

  /** The merchant name for a host: the display name of a known merchant, else the label capitalised. */
  function MerchantName(host: string): (r: string)
    ensures ToLower(Domain(host)) in KnownMerchants ==> r == KnownMerchants[ToLower(Domain(host))]
    ensures ToLower(Domain(host)) !in KnownMerchants ==> r == Capitalize(Domain(host))
    ensures '.' !in r
  {
    var d := Domain(host);
    var key := ToLower(d);
    if key in KnownMerchants then KnownMerchants[key] else Capitalize(d)
  }

  /** extractMerchant (the own-property reading of the merchant map; see the Findings in README). */
  function ExtractMerchant(api: UrlApi, url: string): (r: Option<string>)
    ensures r.None? <==> api.parse(url).None?
    ensures r.Some? ==> r.value == MerchantName(api.parse(url).value.hostname) && '.' !in r.value
  {
    match api.parse(url)
    case None => None
    case Some(u) => Some(MerchantName(u.hostname))
  }

  /** A leading "www." does not change the merchant. */
  lemma MerchantIgnoresWww(host: string)
    requires !StartsWith(host, "www.")
    ensures MerchantName("www." + host) == MerchantName(host)
  {
    assert StartsWith("www." + host, "www.");
    assert ("www." + host)[4..] == host;
  }

  /** Behind a "www." prefix, the first label is everything before the next dot. */
  lemma WwwFirstLabelOf(name: string, rest: string)
    requires '.' !in name
    ensures Domain("www." + name + "." + rest) == name
  {
    var host := name + "." + rest;
    assert "www." + name + "." + rest == "www." + host;
    assert ("www." + host)[..4] == "www.";
    assert ("www." + host)[4..] == host;
    IndexOfIs(host, '.', |name|);
    assert host[..|name|] == name;
  }

  lemma EbayDomain()
    ensures Domain("www.ebay.com") == "ebay"
  {
    assert "www.ebay.com" == "www." + "ebay" + "." + "com";
    WwwFirstLabelOf("ebay", "com");
  }

  /** A known merchant gets its display name. */
  lemma EbayMerchantName()
    ensures MerchantName("www.ebay.com") == "eBay"
  {
    EbayDomain();
    ToLowerOfLower("ebay");
  }

  const ShopHost := "shop.example.com"

  lemma ShopDomain()
    ensures Domain(ShopHost) == "shop"
  {
    assert ShopHost == "shop" + "." + "example.com";
    assert ShopHost[..4][0] != "www."[0];
    FirstLabelOf("shop", "example.com");
  }

  /** No known merchant's key starts with an 's'. */
  lemma ShopUnknown()
    ensures ToLower("shop") == "shop" && "shop" !in KnownMerchants
  {
    ToLowerOfLower("shop");
    assert forall k :: k in KnownMerchants ==> k[0] != 's';
  }

  /** Any other host gets its first label capitalised. */
  lemma ShopMerchantName()
    ensures MerchantName(ShopHost) == "Shop"
  {
    ShopDomain();
    ShopUnknown();
    ShopCapitalized();
  }

  lemma ShopCapitalized()
    ensures Capitalize("shop") == "Shop"
  {
    assert "shop"[1..] == "hop";
  }

  /**
   * The merchant lookup as written: `merchantMap[key]` on an object literal also reaches
   * the members inherited from `Object.prototype`, and for the lower-case keys
   * "constructor" and "__proto__" those are truthy non-strings.
   */
  datatype MerchantValue = Text(s: string) | NonString(what: string)

  const InheritedMembers: map<string, string> := map["constructor" := "Object", "__proto__" := "Object.prototype"]

  function MerchantValueAsWritten(host: string): MerchantValue {
    var d := Domain(host);
    var key := ToLower(d);
    if key in KnownMerchants then Text(KnownMerchants[key])
    else if key in InheritedMembers then NonString(InheritedMembers[key])
    else Text(Capitalize(d))
  }

  function ExtractMerchantAsWritten(api: UrlApi, url: string): (r: Option<MerchantValue>)
    ensures r.None? <==> api.parse(url).None?
    ensures r.Some? ==> r.value == MerchantValueAsWritten(api.parse(url).value.hostname)
  {
    match api.parse(url)
    case None => None
    case Some(u) => Some(MerchantValueAsWritten(u.hostname))
  }

  const ConstructorLabel := "constructor"
  const ConstructorHost := ConstructorLabel + ".io"

  /** The first label of a host that has no "www." prefix is everything before its first dot. */
  lemma FirstLabelOf(name: string, rest: string)
    requires '.' !in name && !StartsWith(name + "." + rest, "www.")
    ensures Domain(name + "." + rest) == name
  {
    var host := name + "." + rest;
    IndexOfIs(host, '.', |name|);
    assert host[..|name|] == name;
  }

  lemma ConstructorDomain()
    ensures Domain(ConstructorHost) == ConstructorLabel
  {
    assert ConstructorHost[..4][0] == ConstructorLabel[0] != "www."[0];
    FirstLabelOf(ConstructorLabel, "io");
  }

  lemma ConstructorKey()
    ensures ToLower(ConstructorLabel) == ConstructorLabel
    ensures ConstructorLabel !in KnownMerchants && ConstructorLabel in InheritedMembers
  {
    ToLowerOfLower(ConstructorLabel);
    assert |ConstructorLabel| == 11;
    assert forall k :: k in KnownMerchants ==> |k| < 8;
  }

  lemma ConstructorCapitalized()
    ensures Capitalize(ConstructorLabel) == "Constructor"
  {
    assert UpperChar('c') == 'C';
    assert ConstructorLabel[1..] == "onstructor";
  }

  /** For the host constructor.io the code as written yields the Object constructor, not a name. */
  lemma ConstructorHostYieldsFunction()
    ensures MerchantValueAsWritten(ConstructorHost) == NonString("Object")
    ensures MerchantName(ConstructorHost) == "Constructor"
  {
    ConstructorDomain();
    ConstructorKey();
    ConstructorCapitalized();
  }

  /** Away from the two inherited keys the code as written and the model agree. */
  lemma AsWrittenAgreesElsewhere(host: string)
    requires ToLower(Domain(host)) !in InheritedMembers
    ensures MerchantValueAsWritten(host) == Text(MerchantName(host))
  {
  }

  // ---------------------------------------------------------------------------
  // isLikelyProductUrl
  // ---------------------------------------------------------------------------

  const ProductIndicators: seq<string> := ["/product/", "/item/", "/p/", "/dp/", "/listing/"]

  predicate HasProductIndicator(path: string) {
    exists k :: 0 <= k < |ProductIndicators| && Contains(path, ProductIndicators[k])
  }

  /** `s.split(sep)` */
  function Split(s: string, sep: char): (parts: seq<string>)
    ensures |parts| >= 1
    decreases |s|
  {
    var i := IndexOf(s, sep);
    if i == |s| then [s] else [s[..i]] + Split(s[i + 1..], sep)
  }

  /** `parts.filter(Boolean).length` */
  function CountNonEmpty(parts: seq<string>): nat {
    if parts == [] then 0 else (if parts[0] != [] then 1 else 0) + CountNonEmpty(parts[1..])
  }

  /** `path.split('/').filter(Boolean).length >= 2` */
  predicate IsDeepPath(path: string) {
    CountNonEmpty(Split(path, '/')) >= 2
  }

  predicate IsProductPath(path: string) {
    HasProductIndicator(path) || IsDeepPath(path)
  }

  /**
   * isLikelyProductUrl: the URL parses and its lower-cased path contains a product indicator
   * or has a '/' with some other character both before and after it.
   */
  function IsLikelyProductUrl(api: UrlApi, url: string): (b: bool)
    ensures b <==> api.parse(url).Some?
                   && (HasProductIndicator(ToLower(api.parse(url).value.pathname))
                       || SlashBetweenSegments(ToLower(api.parse(url).value.pathname)))
  {
    match api.parse(url)
    case None => false
    case Some(u) =>
      DeepPathIff(ToLower(u.pathname));
      IsProductPath(ToLower(u.pathname))
  }

  /** Some character of `p[a..b]` is not a '/'. */
  predicate NonSlashIn(p: string, a: nat, b: nat)
    requires a <= b <= |p|
  {
    exists k :: a <= k < b && p[k] != '/'
  }

  /** Some '/' of `p` has a non-slash character on each side of it. */
  predicate SlashBetweenSegments(p: string) {
    exists j :: 0 <= j < |p| && p[j] == '/' && NonSlashIn(p, 0, j) && NonSlashIn(p, j + 1, |p|)
  }

  lemma NonSlashInShift(p: string, d: nat, a: nat, b: nat)
    requires d <= |p| && a <= b <= |p| - d
    ensures NonSlashIn(p[d..], a, b) <==> NonSlashIn(p, a + d, b + d)
  {
    if NonSlashIn(p[d..], a, b) {
      var k :| a <= k < b && p[d..][k] != '/';
      assert p[k + d] == p[d..][k];
    }
    if NonSlashIn(p, a + d, b + d) {
      var k :| a + d <= k < b + d && p[k] != '/';
      assert p[d..][k - d] == p[k];
    }
  }

  /** Splitting at the first '/', at `i`, contributes its left part and recurses on the rest. */
  lemma SplitStep(p: string, i: nat)
    requires i == IndexOf(p, '/') && i < |p|
    ensures CountNonEmpty(Split(p, '/')) == (if i > 0 then 1 else 0) + CountNonEmpty(Split(p[i + 1..], '/'))
  {
    var head := p[..i];
    var tail := Split(p[i + 1..], '/');
    assert Split(p, '/') == [head] + tail;
    CountNonEmptyCons(head, tail);
    assert |head| == i;
  }

  lemma CountNonEmptyCons(head: string, tail: seq<string>)
    ensures CountNonEmpty([head] + tail) == (if head != [] then 1 else 0) + CountNonEmpty(tail)
  {
    assert ([head] + tail)[1..] == tail;
  }

  /** A path has a non-empty segment iff it has a character other than '/'. */
  lemma {:induction false} SomeSegmentIff(p: string)
    ensures CountNonEmpty(Split(p, '/')) >= 1 <==> NonSlashIn(p, 0, |p|)
    decreases |p|
  {
    var i := IndexOf(p, '/');
    if i == |p| {
      assert Split(p, '/') == [p];
      assert CountNonEmpty([p]) == (if p != [] then 1 else 0) + CountNonEmpty([]);
      assert p != [] ==> p[0] != '/';
    } else {
      var rest := p[i + 1..];
      SplitStep(p, i);
      SomeSegmentIff(rest);
      NonSlashInShift(p, i + 1, 0, |rest|);
      if NonSlashIn(p, 0, |p|) {
        var k :| 0 <= k < |p| && p[k] != '/';
        assert k < i || NonSlashIn(p, i + 1, |p|);
      }
      if i > 0 {
        assert p[0] != '/';
      }
    }
  }

  /** When the path starts with a non-empty segment, a later non-slash finishes the pattern. */
  lemma SegmentsAfterNonEmptyHead(p: string)
    requires 0 < IndexOf(p, '/') < |p|
    ensures SlashBetweenSegments(p) <==> NonSlashIn(p, IndexOf(p, '/') + 1, |p|)
  {
    var i := IndexOf(p, '/');
    if NonSlashIn(p, i + 1, |p|) {
      assert p[0] != '/';
      assert NonSlashIn(p, 0, i);
    }
    if SlashBetweenSegments(p) {
      var j :| 0 <= j < |p| && p[j] == '/' && NonSlashIn(p, 0, j) && NonSlashIn(p, j + 1, |p|);
      var k :| j + 1 <= k < |p| && p[k] != '/';
      assert NonSlashIn(p, i + 1, |p|);
    }
  }

  /** A leading '/' does not change the pattern. */
  lemma SegmentsAfterSlashHead(p: string)
    requires |p| > 0 && p[0] == '/'
    ensures SlashBetweenSegments(p) <==> SlashBetweenSegments(p[1..])
  {
    var rest := p[1..];
    if SlashBetweenSegments(rest) {
      var j :| 0 <= j < |rest| && rest[j] == '/' && NonSlashIn(rest, 0, j) && NonSlashIn(rest, j + 1, |rest|);
      NonSlashInShift(p, 1, 0, j);
      NonSlashInShift(p, 1, j + 1, |rest|);
      var k :| 1 <= k < j + 1 && p[k] != '/';
      assert NonSlashIn(p, 0, j + 1);
      assert p[j + 1] == '/';
    }
    if SlashBetweenSegments(p) {
      var j :| 0 <= j < |p| && p[j] == '/' && NonSlashIn(p, 0, j) && NonSlashIn(p, j + 1, |p|);
      var k :| 0 <= k < j && p[k] != '/';
      NonSlashInShift(p, 1, 0, j - 1);
      NonSlashInShift(p, 1, j, |rest|);
      assert NonSlashIn(p, 1, j);
      assert rest[j - 1] == '/';
    }
  }

  /**
   * The segment count of isLikelyProductUrl without split: a path has two non-empty
   * segments iff some '/' has a non-slash character on each side.
   */
  lemma {:induction false} DeepPathIff(p: string)
    ensures IsDeepPath(p) <==> SlashBetweenSegments(p)
    decreases |p|
  {
    var i := IndexOf(p, '/');
    if i == |p| {
      assert Split(p, '/') == [p];
      assert CountNonEmpty([p]) == (if p != [] then 1 else 0) + CountNonEmpty([]);
    } else {
      var rest := p[i + 1..];
      SplitStep(p, i);
      if i > 0 {
        SomeSegmentIff(rest);
        NonSlashInShift(p, i + 1, 0, |rest|);
        SegmentsAfterNonEmptyHead(p);
      } else {
        DeepPathIff(rest);
        SegmentsAfterSlashHead(p);
      }
    }
  }

  lemma ProductPathExamples()
    ensures IsProductPath("/product/123")
    ensures IsProductPath("/shop/chairs")
  {
    ProductIndicatorExample();
    DeepPathExample();
  }

  lemma ProductIndicatorExample()
    ensures IsProductPath("/product/123")
  {
    assert "/product/123"[..9] == "/product/";
    assert Contains("/product/123", ProductIndicators[0]);
  }

  lemma DeepPathExample()
    ensures IsProductPath("/shop/chairs")
  {
    DeepPathIff("/shop/chairs");
    assert "/shop/chairs"[5] == '/' && "/shop/chairs"[1] != '/' && "/shop/chairs"[6] != '/';
    assert NonSlashIn("/shop/chairs", 0, 5) && NonSlashIn("/shop/chairs", 6, 12);
  }

  // ---------------------------------------------------------------------------
  // scrapeProductUrl
  // ---------------------------------------------------------------------------

  /** What fetching the page through the relay produced. */
  datatype PageFetch =
    | Page(doc: Document)
    | HttpError(statusText: string)
    | FetchThrew(message: Option<string>)

  /** The uniform failure shape; the merchant is still read off the URL. */
  function FailedScrape(api: UrlApi, url: string, message: string): ScrapedProduct {
    ScrapedProduct(None, None, "USD", None, ExtractMerchant(api, url), false, Some(message))
  }

  /**
   * scrapeProductUrl: success exactly when the URL parses and the page was fetched; a
   * success carries the extractors' results, a failure the uniform failure shape with the
   * error message of its cause.
   */
  method ScrapeProductUrl(api: UrlApi, url: string, fetch: PageFetch) returns (r: ScrapedProduct)
    ensures r.success <==> api.parse(url).Some? && fetch.Page?
    ensures r.merchant == ExtractMerchant(api, url)
    ensures !r.success ==> r.title.None? && r.price.None? && r.imageUrl.None? && r.currency == "USD" && r.error.Some?
    ensures api.parse(url).None? ==> r.error == Some(api.invalidUrlMessage) && r.merchant.None?
    ensures api.parse(url).Some? && fetch.HttpError? ==> r.error == Some("Failed to fetch URL: " + fetch.statusText)
    ensures api.parse(url).Some? && fetch.FetchThrew? ==> r.error == Some(fetch.message.GetOr("Unknown error"))
    ensures r.success ==>
      && r.title == Some(ExtractTitle(fetch.doc, api, url))
      && r.price == FirstPrice(PriceCandidates(fetch.doc))
      && r.currency == ExtractCurrency(fetch.doc)
      && r.imageUrl == Absolutize(api, FirstTruthy(ImageCandidates(fetch.doc)), url)
      && r.error.None?
  {
    if api.parse(url).None? {
      return FailedScrape(api, url, api.invalidUrlMessage);
    }
    match fetch
    case HttpError(statusText) =>
      r := FailedScrape(api, url, "Failed to fetch URL: " + statusText);
    case FetchThrew(message) =>
      r := FailedScrape(api, url, message.GetOr("Unknown error"));
    case Page(doc) =>
      var price := ExtractPrice(doc);
      var image := ExtractImage(doc, api, url);
      r := ScrapedProduct(Some(ExtractTitle(doc, api, url)), price, ExtractCurrency(doc), image,
                          ExtractMerchant(api, url), true, None);
  }
}
