/**
 * Text handling behind the price column of scrapper.py: Python's `str.strip()`
 * (line 44), the chain of literal rewrites applied to every price (line 72),
 * and `float()` restricted to plain decimal numerals.
 */
module PriceText {
  import opened Wrappers

  // ---------------------------------------------------------------------------
  // Whitespace and str.strip()
  // ---------------------------------------------------------------------------

  /**
   * The characters Python's `str.isspace()` accepts, which `strip()` removes
   * at the ends; `float()` removes them too, except the information separators.
   */
  predicate IsSpace(c: char) {
    c == ' ' || ('\t' <= c <= '\r') || ('\U{1C}' <= c <= '\U{1F}') || c == '\U{85}' || c == '\U{A0}'
    || c == '\U{1680}' || ('\U{2000}' <= c <= '\U{200A}') || c == '\U{2028}' || c == '\U{2029}'
    || c == '\U{202F}' || c == '\U{205F}' || c == '\U{3000}'
  }

  /** Number of whitespace characters at the start of `s`. */
  function LeadingSpaces(s: string): (k: nat)
    ensures k <= |s|
    ensures forall i :: 0 <= i < k ==> IsSpace(s[i])
    ensures k < |s| ==> !IsSpace(s[k])
  {
    if s != [] && IsSpace(s[0]) then 1 + LeadingSpaces(s[1..]) else 0
  }

  /** Number of whitespace characters at the end of `s`. */
  function TrailingSpaces(s: string): (k: nat)
    ensures k <= |s|
    ensures forall i :: |s| - k <= i < |s| ==> IsSpace(s[i])
    ensures k < |s| ==> !IsSpace(s[|s| - 1 - k])
  {
    if s != [] && IsSpace(s[|s| - 1]) then 1 + TrailingSpaces(s[..|s| - 1]) else 0
  }

  /** Python's `s.strip()` with no argument. */
  function Strip(s: string): (r: string)
    ensures |r| <= |s|
    ensures r != [] ==> !IsSpace(r[0]) && !IsSpace(r[|r| - 1])
  {
    var t := s[LeadingSpaces(s)..];
    t[..|t| - TrailingSpaces(t)]
  }

  /** `strip()` keeps one contiguous slice of its input and drops only whitespace around it. */
  lemma StripSlice(s: string) returns (i: nat, j: nat)
    ensures i <= j <= |s| && Strip(s) == s[i..j]
    ensures forall k :: 0 <= k < i ==> IsSpace(s[k])
    ensures forall k :: j <= k < |s| ==> IsSpace(s[k])
  {
    var t := s[LeadingSpaces(s)..];
    i := LeadingSpaces(s);
    j := i + |t| - TrailingSpaces(t);
    assert Strip(s) == s[i..j];
    forall k | j <= k < |s| ensures IsSpace(s[k]) {
      assert s[k] == t[k - i];
    }
  }

  /** Text that neither begins nor ends with whitespace is left alone by `strip()`. */
  lemma StripClean(s: string)
    requires s != [] && !IsSpace(s[0]) && !IsSpace(s[|s| - 1])
    ensures Strip(s) == s
  {
    assert LeadingSpaces(s) == 0;
    assert TrailingSpaces(s) == 0;
  }

  // ---------------------------------------------------------------------------
  // Counting and the literal rewrites of str.replace
  // ---------------------------------------------------------------------------

  /** Number of occurrences of `c` in `s`. */
  function Count(s: string, c: char): (n: nat)
    ensures n <= |s|
    ensures n == 0 <==> c !in s
  {
    if s == [] then 0 else (if s[0] == c then 1 else 0) + Count(s[1..], c)
  }

  lemma {:induction false} CountConcat(a: string, b: string, c: char)
    ensures Count(a + b, c) == Count(a, c) + Count(b, c)
  {
    if a == [] {
      assert a + b == b;
    } else {
      assert (a + b)[1..] == a[1..] + b;
      CountConcat(a[1..], b, c);
    }
  }

  /** `strip()` removes whitespace only, so it keeps every other character, in number. */
  lemma StripKeepsCount(s: string, c: char)
    requires !IsSpace(c)
    ensures Count(Strip(s), c) == Count(s, c)
  {
    var i, j := StripSlice(s);
    assert s == s[..i] + s[i..j] + s[j..];
    CountConcat(s[..i] + s[i..j], s[j..], c);
    CountConcat(s[..i], s[i..j], c);
    assert c !in s[..i];
    assert c !in s[j..];
  }

  /** `s.replace(c, "")` for a one-character `c`. */
  function RemoveAll(s: string, c: char): (r: string)
    ensures c !in r
    ensures |r| == |s| - Count(s, c)
  {
    if s == [] then [] else (if s[0] == c then [] else [s[0]]) + RemoveAll(s[1..], c)
  }

  /** `s.replace(c, d)` for one-character `c` and `d`. */
  function ReplaceAll(s: string, c: char, d: char): (r: string)
    ensures |r| == |s|
    ensures forall i :: 0 <= i < |s| ==> r[i] == if s[i] == c then d else s[i]
  {
    if s == [] then [] else [if s[0] == c then d else s[0]] + ReplaceAll(s[1..], c, d)
  }

  lemma {:induction false} RemoveAllConcat(a: string, b: string, c: char)
    ensures RemoveAll(a + b, c) == RemoveAll(a, c) + RemoveAll(b, c)
  {
    if a == [] {
      assert a + b == b;
    } else {
      assert (a + b)[1..] == a[1..] + b;
      RemoveAllConcat(a[1..], b, c);
    }
  }

  lemma ReplaceAllConcat(a: string, b: string, c: char, d: char)
    ensures ReplaceAll(a + b, c, d) == ReplaceAll(a, c, d) + ReplaceAll(b, c, d)
  {
  }

  /**
   * The price rewrite of scrapper.py line 72, applied in the source's order:
   * drop every '.', turn every ',' into '.', drop every '€'.
   */
  function NormalizePrice(raw: string): string {
    RemoveAll(ReplaceAll(RemoveAll(raw, '.'), ',', '.'), '€')
  }

  /** What a single character becomes under the rewrite chain. */
  function NormalizeChar(c: char): string {
    if c == '.' || c == '€' then [] else if c == ',' then ['.'] else [c]
  }

  /** Reference reading of the rewrite: one left-to-right pass, character by character. */
  function OnePass(s: string): string {
    if s == [] then [] else NormalizeChar(s[0]) + OnePass(s[1..])
  }

  lemma {:induction false} OnePassConcat(a: string, b: string)
    ensures OnePass(a + b) == OnePass(a) + OnePass(b)
  {
    if a == [] {
      assert a + b == b;
    } else {
      assert (a + b)[1..] == a[1..] + b;
      OnePassConcat(a[1..], b);
    }
  }

  /** The three whole-string rewrites act as one pass that rewrites each character on its own. */
  lemma {:induction false} NormalizeIsOnePass(s: string)
    ensures NormalizePrice(s) == OnePass(s)
  {
    if s != [] {
      var x, t := s[0], s[1..];
      assert s == [x] + t;
      var a := if x == '.' then [] else [x];
      assert RemoveAll(s, '.') == a + RemoveAll(t, '.');
      ReplaceAllConcat(a, RemoveAll(t, '.'), ',', '.');
      RemoveAllConcat(ReplaceAll(a, ',', '.'), ReplaceAll(RemoveAll(t, '.'), ',', '.'), '€');
      assert RemoveAll(ReplaceAll(a, ',', '.'), '€') == NormalizeChar(x);
      NormalizeIsOnePass(t);
    }
  }

  /**
   * What the rewrite guarantees: every ',' becomes a '.', no ',' or '€' is left,
   * the length drops by the number of '.' and '€', and every other character
   * survives in its original order.
   */
  lemma {:induction false} NormalizePriceFacts(s: string)
    ensures Count(NormalizePrice(s), '.') == Count(s, ',')
    ensures ',' !in NormalizePrice(s) && '€' !in NormalizePrice(s)
    ensures |NormalizePrice(s)| == |s| - Count(s, '.') - Count(s, '€')
    ensures RemoveAll(NormalizePrice(s), '.') == RemoveAll(RemoveAll(RemoveAll(s, '.'), ','), '€')
  {
    NormalizeIsOnePass(s);
    OnePassFacts(s);
  }

  lemma {:induction false} OnePassFacts(s: string)
    ensures Count(OnePass(s), '.') == Count(s, ',')
    ensures ',' !in OnePass(s) && '€' !in OnePass(s)
    ensures |OnePass(s)| == |s| - Count(s, '.') - Count(s, '€')
    ensures RemoveAll(OnePass(s), '.') == RemoveAll(RemoveAll(RemoveAll(s, '.'), ','), '€')
  {
    OnePassCounts(s);
    OnePassKeepsOthers(s);
  }

  lemma {:induction false} OnePassCounts(s: string)
    ensures Count(OnePass(s), '.') == Count(s, ',')
    ensures Count(OnePass(s), ',') == 0 && Count(OnePass(s), '€') == 0
    ensures |OnePass(s)| == |s| - Count(s, '.') - Count(s, '€')
  {
    if s != [] {
      var x, t := s[0], s[1..];
      OnePassCounts(t);
      CountConcat(NormalizeChar(x), OnePass(t), '.');
      CountConcat(NormalizeChar(x), OnePass(t), ',');
      CountConcat(NormalizeChar(x), OnePass(t), '€');
    }
  }

  lemma {:induction false} OnePassKeepsOthers(s: string)
    ensures RemoveAll(OnePass(s), '.') == RemoveAll(RemoveAll(RemoveAll(s, '.'), ','), '€')
  {
    if s != [] {
      var x, t := s[0], s[1..];
      OnePassKeepsOthers(t);
      RemoveAllConcat(NormalizeChar(x), OnePass(t), '.');
      var a := if x == '.' then [] else [x];
      assert RemoveAll(s, '.') == a + RemoveAll(t, '.');
      RemoveAllConcat(a, RemoveAll(t, '.'), ',');
      RemoveAllConcat(RemoveAll(a, ','), RemoveAll(RemoveAll(t, '.'), ','), '€');
    }
  }

  // ---------------------------------------------------------------------------
  // float() on decimal numerals
  // ---------------------------------------------------------------------------

  predicate IsDigit(c: char) { '0' <= c <= '9' }

  predicate AllDigits(s: string) { forall i :: 0 <= i < |s| ==> IsDigit(s[i]) }

  function DigitValue(c: char): nat
    requires IsDigit(c)
  {
    c as int - '0' as int
  }

  /** The natural number a string of decimal digits denotes (0 for the empty string). */
  function DigitsValue(s: string): nat
    requires AllDigits(s)
  {
    if s == [] then 0 else DigitsValue(s[..|s| - 1]) * 10 + DigitValue(s[|s| - 1])
  }

  function Pow10(k: nat): (p: nat)
    ensures p >= 1
  {
    if k == 0 then 1 else 10 * Pow10(k - 1)
  }

  /** Position of the first `c` in `s`. */
  function IndexOf(s: string, c: char): (i: nat)
    requires c in s
    ensures i < |s| && s[i] == c && c !in s[..i]
  {
    if s[0] == c then 0 else 1 + IndexOf(s[1..], c)
  }

  /**
   * Python's `float()` on text that has already been stripped, restricted to
   * decimal numerals: digits with at most one '.', and at least one digit.
   * `None` stands for the ValueError `float()` raises.
   */
  function ParseDecimal(s: string): (r: Option<real>)
    ensures r.Some? ==> s != [] && r.value >= 0.0
  {
    if '.' !in s then
      if s != [] && AllDigits(s) then Some(DigitsValue(s) as real) else None
    else
      var i := IndexOf(s, '.');
      var whole, frac := s[..i], s[i + 1..];
      if AllDigits(whole) && AllDigits(frac) && |whole| + |frac| > 0 then
        Some(DecimalValue(whole, frac))
      else
        None
  }

  /** The value of the numeral "<whole>.<frac>". */
  function DecimalValue(whole: string, frac: string): (v: real)
    requires AllDigits(whole) && AllDigits(frac)
    ensures v >= DigitsValue(whole) as real
  {
    DigitsValue(whole) as real + DigitsValue(frac) as real / Pow10(|frac|) as real
  }

  /** The information separators U+001C to U+001F: whitespace to `strip()`, but not to `float()`. */
  predicate HasSeparator(s: string) {
    '\U{1C}' in s || '\U{1D}' in s || '\U{1E}' in s || '\U{1F}' in s
  }

  /**
   * `float(text)`: surrounding whitespace is ignored, then an optional sign
   * and a decimal numeral must follow. `float()` trims the whitespace of
   * `strip()` except the information separators; since these are not numeral
   * characters either, a text holding one is never a number.
   */
  function ParseFloat(text: string): Option<real> {
    if HasSeparator(text) then None
    else
      var t := Strip(text);
      if t != [] && (t[0] == '+' || t[0] == '-') then
        match ParseDecimal(t[1..])
        case None => None
        case Some(v) => Some(if t[0] == '-' then -v else v)
      else
        ParseDecimal(t)
  }

  /** A numeral with two or more points is not a number. */
  lemma ParseDecimalRejectsTwoPoints(s: string)
    requires Count(s, '.') >= 2
    ensures ParseDecimal(s) == None
  {
    var i := IndexOf(s, '.');
    assert s == s[..i] + [s[i]] + s[i + 1..];
    CountConcat(s[..i] + [s[i]], s[i + 1..], '.');
    CountConcat(s[..i], [s[i]], '.');
    assert '.' in s[i + 1..];
  }

  /**
   * Price text with two or more commas becomes text with two or more points,
   * which `float()` rejects: the whole price column fails to convert.
   */
  lemma TwoCommasFail(raw: string)
    requires Count(raw, ',') >= 2
    ensures Count(NormalizePrice(raw), '.') >= 2
    ensures ParseFloat(NormalizePrice(raw)) == None
  {
    NormalizePriceFacts(raw);
    ParseFloatRejectsTwoPoints(NormalizePrice(raw));
  }

  /** Text with two or more points is not a number, signed or not. */
  lemma ParseFloatRejectsTwoPoints(text: string)
    requires Count(text, '.') >= 2
    ensures ParseFloat(text) == None
  {
    var t := Strip(text);
    StripKeepsCount(text, '.');
    ParseDecimalRejectsTwoPoints(t);
    if t != [] && (t[0] == '+' || t[0] == '-') {
      assert t == [t[0]] + t[1..];
      CountConcat([t[0]], t[1..], '.');
      ParseDecimalRejectsTwoPoints(t[1..]);
    }
  }

  // ---------------------------------------------------------------------------
  // The locale format the rewrite assumes: '.' groups thousands, ',' marks decimals
  // ---------------------------------------------------------------------------

  function DigitChar(d: nat): (c: char)
    requires d < 10
    ensures IsDigit(c) && DigitValue(c) == d
  {
    ('0' as int + d) as char
  }

  /** Decimal digits of `n`, without leading zeros. */
  function Digits(n: nat): (s: string)
    ensures s != [] && AllDigits(s) && DigitsValue(s) == n
  {
    if n < 10 then [DigitChar(n)]
    else
      var s := Digits(n / 10) + [DigitChar(n % 10)];
      assert s[..|s| - 1] == Digits(n / 10);
      s
  }

  /** Exactly `width` digits of `n`, zero-padded on the left. */
  function Padded(n: nat, width: nat): (s: string)
    requires n < Pow10(width)
    ensures |s| == width && AllDigits(s) && DigitsValue(s) == n
  {
    if width == 0 then []
    else
      var s := Padded(n / 10, width - 1) + [DigitChar(n % 10)];
      assert s[..|s| - 1] == Padded(n / 10, width - 1);
      s
  }

  /** `n` with a '.' between groups of three digits, as prices are shown on the scraped sites. */
  function Grouped(n: nat): (s: string)
    ensures s != [] && IsDigit(s[0])
  {
    if n < 1000 then Digits(n) else Grouped(n / 1000) + "." + Padded(n % 1000, 3)
  }

  /** A euro price as shown on the scraped sites, for example "1.234,56€". */
  function EuroText(units: nat, cents: nat): string
    requires cents < 100
  {
    Grouped(units) + "," + Padded(cents, 2) + "€"
  }

  lemma {:induction false} DigitsValueConcat(a: string, b: string)
    requires AllDigits(a) && AllDigits(b)
    ensures AllDigits(a + b)
    ensures DigitsValue(a + b) == DigitsValue(a) * Pow10(|b|) + DigitsValue(b)
  {
    if b == [] {
      assert a + b == a;
    } else {
      var b', c := b[..|b| - 1], b[|b| - 1];
      assert b == b' + [c];
      assert a + b == (a + b') + [c];
      DigitsValueConcat(a, b');
      DigitsValueSnoc(a + b', c);
      DigitsValueSnoc(b', c);
      ShiftDigit(DigitsValue(a), DigitsValue(b'), Pow10(|b'|), DigitValue(c));
    }
  }

  /** Appending a digit multiplies the value by ten and adds the digit. */
  lemma DigitsValueSnoc(s: string, c: char)
    requires AllDigits(s) && IsDigit(c)
    ensures AllDigits(s + [c]) && DigitsValue(s + [c]) == DigitsValue(s) * 10 + DigitValue(c)
  {
    assert (s + [c])[..|s|] == s;
  }

  lemma ShiftDigit(x: int, y: int, q: int, d: int)
    ensures (x * q + y) * 10 + d == x * (10 * q) + (y * 10 + d)
  {
  }

  lemma {:induction false} OnePassDigits(s: string)
    requires AllDigits(s)
    ensures OnePass(s) == s
  {
    if s != [] {
      OnePassDigits(s[1..]);
    }
  }

  /** Removing the thousands points leaves the digits of the number. */
  lemma {:induction false} OnePassGrouped(n: nat)
    ensures AllDigits(OnePass(Grouped(n)))
    ensures OnePass(Grouped(n)) != [] && DigitsValue(OnePass(Grouped(n))) == n
  {
    if n < 1000 {
      OnePassDigits(Digits(n));
    } else {
      var p := Padded(n % 1000, 3);
      OnePassGrouped(n / 1000);
      OnePassConcat(Grouped(n / 1000) + ".", p);
      OnePassConcat(Grouped(n / 1000), ".");
      OnePassDigits(p);
      assert OnePass(Grouped(n)) == OnePass(Grouped(n / 1000)) + p;
      DigitsValueConcat(OnePass(Grouped(n / 1000)), p);
      assert Pow10(3) == 1000;
    }
  }

  lemma IndexOfAfterPrefix(a: string, c: char, b: string)
    requires c !in a
    ensures c in a + [c] + b && IndexOf(a + [c] + b, c) == |a|
  {
    var s := a + [c] + b;
    assert s[|a|] == c;
    assert s[..|a|] == a;
  }

  /** A numeral "<digits>.<digits>" parses to its whole part plus its scaled fraction. */
  lemma ParseDecimalPoint(whole: string, frac: string)
    requires whole != [] && AllDigits(whole) && AllDigits(frac)
    ensures ParseDecimal(whole + "." + frac) == Some(DecimalValue(whole, frac))
  {
    var t := whole + ['.'] + frac;
    assert whole + "." + frac == t;
    assert !IsDigit('.');
    IndexOfAfterPrefix(whole, '.', frac);
    var i := IndexOf(t, '.');
    assert t[..i] == whole;
    assert t[i + 1..] == frac;
  }

  /** Normalising a price in the sites' format leaves "<digits>.<two digits>". */
  lemma NormalizeEuroText(units: nat, cents: nat)
    requires cents < 100
    ensures NormalizePrice(EuroText(units, cents)) == OnePass(Grouped(units)) + "." + Padded(cents, 2)
  {
    var g, c := Grouped(units), Padded(cents, 2);
    NormalizeIsOnePass(EuroText(units, cents));
    OnePassConcat(g + "," + c, "€");
    OnePassConcat(g + ",", c);
    OnePassConcat(g, ",");
    OnePassDigits(c);
    assert OnePass("€") == [];
    assert OnePass(",") == ".";
  }

  /** "<digits>.<two digits>" parses to the whole part plus hundredths. */
  lemma ParseCentsNumeral(whole: string, frac: string, units: nat, cents: nat)
    requires whole != [] && AllDigits(whole) && AllDigits(frac) && |frac| == 2
    requires DigitsValue(whole) == units && DigitsValue(frac) == cents
    ensures ParseFloat(whole + "." + frac) == Some(units as real + cents as real / 100.0)
  {
    var t := whole + "." + frac;
    NumeralUnstripped(whole, frac);
    assert ParseFloat(t) == ParseDecimal(t);
    ParseDecimalPoint(whole, frac);
    DecimalCents(whole, frac, units, cents);
  }

  /** A numeral starting and ending with a digit has nothing for `strip` to remove, and no separator. */
  lemma NumeralUnstripped(whole: string, frac: string)
    requires whole != [] && AllDigits(whole) && AllDigits(frac) && frac != []
    ensures Strip(whole + "." + frac) == whole + "." + frac
    ensures !HasSeparator(whole + "." + frac)
  {
    var t := whole + "." + frac;
    assert forall i :: 0 <= i < |t| ==> IsDigit(t[i]) || t[i] == '.' by {
      forall i | 0 <= i < |t|
        ensures IsDigit(t[i]) || t[i] == '.'
      {
        if i < |whole| {
          assert t[i] == whole[i];
        } else if i > |whole| {
          assert t[i] == frac[i - |whole| - 1];
        }
      }
    }
    assert t[0] == whole[0];
    assert t[|t| - 1] == frac[|frac| - 1];
    StripClean(t);
  }

  /** A sign before a clean numeral: `float()` applies it to the numeral's value. */
  lemma SignedParse(c: char, n: string, v: real, t: string)
    requires (c == '-' || c == '+') && n != [] && !IsSpace(n[|n| - 1]) && !HasSeparator(n)
    requires ParseDecimal(n) == Some(v) && t == [c] + n
    ensures ParseFloat(t) == Some(if c == '-' then -v else v)
  {
    SignUnstripped(c, n);
    var u := Strip(t);
    assert u == t && u[0] == c && u[1..] == n;
  }

  /** A sign before a clean numeral leaves nothing for `strip` to remove and adds no separator. */
  lemma SignUnstripped(c: char, n: string)
    requires (c == '-' || c == '+') && n != [] && !IsSpace(n[|n| - 1]) && !HasSeparator(n)
    ensures !HasSeparator([c] + n) && Strip([c] + n) == [c] + n
    ensures ([c] + n)[0] == c && ([c] + n)[1..] == n
  {
    var t := [c] + n;
    assert t[|t| - 1] == n[|n| - 1];
    StripClean(t);
    assert forall x :: x in t ==> x == c || x in n;
  }

  lemma DecimalCents(whole: string, frac: string, units: nat, cents: nat)
    requires AllDigits(whole) && AllDigits(frac) && |frac| == 2
    requires DigitsValue(whole) == units && DigitsValue(frac) == cents
    ensures DecimalValue(whole, frac) == units as real + cents as real / 100.0
  {
    assert Pow10(2) == 100;
  }

  /**
   * Round trip: a price in the sites' locale format is normalised and parsed
   * back to exactly the amount it shows.
   */
  lemma EuroTextRoundTrip(units: nat, cents: nat)
    requires cents < 100
    ensures ParseFloat(NormalizePrice(EuroText(units, cents))) == Some(units as real + cents as real / 100.0)
  {
    NormalizeEuroText(units, cents);
    OnePassGrouped(units);
    ParseCentsNumeral(OnePass(Grouped(units)), Padded(cents, 2), units, cents);
  }

  // Worked examples, evaluated in small steps so that
  // no proof has to unfold the rewrites on a long literal at once.

  lemma NormalizeVia(s: string, r: string)
    requires OnePass(s) == r
    ensures NormalizePrice(s) == r
  {
    NormalizeIsOnePass(s);
  }

  lemma ParseCentsVia(t: string, units: nat, cents: nat)
    requires cents < 100 && t == Digits(units) + "." + Padded(cents, 2)
    ensures ParseFloat(t) == Some(units as real + cents as real / 100.0)
  {
    ParseCentsNumeral(Digits(units), Padded(cents, 2), units, cents);
  }

  lemma NormalizeThousandsExample(s: string)
    requires s == "1.234,56€"
    ensures NormalizePrice(s) == "1234.56"
  {
    assert OnePass("1.234,56€") == "1234.56";
    NormalizeVia(s, "1234.56");
  }

  lemma ParseThousandsExample(t: string)
    requires t == "1234.56"
    ensures ParseFloat(t) == Some(1234.56)
  {
    DigitsExample();
    PaddedExamples();
    assert t == Digits(1234) + "." + Padded(56, 2);
    ParseCentsVia(t, 1234, 56);
  }

  lemma DigitsExample()
    ensures Digits(1234) == "1234"
  {
    assert Digits(1) == "1";
    assert Digits(12) == "12";
    assert Digits(123) == "123";
  }

  lemma NormalizeCentsExample(s: string)
    requires s == "99,90€"
    ensures NormalizePrice(s) == "99.90"
  {
    assert OnePass("99,90€") == "99.90";
    NormalizeVia(s, "99.90");
  }

  lemma ParseCentsExample(t: string)
    requires t == "99.90"
    ensures ParseFloat(t) == Some(99.9)
  {
    DigitsExample99();
    PaddedExamples();
    assert t == Digits(99) + "." + Padded(90, 2);
    ParseCentsVia(t, 99, 90);
  }

  lemma DigitsExample99()
    ensures Digits(99) == "99"
  {
    assert Digits(9) == "9";
  }

  lemma PaddedExamples()
    ensures Padded(90, 2) == "90" && Padded(56, 2) == "56"
  {
    assert Padded(9, 1) == "9" && Padded(5, 1) == "5";
  }

  /** A negative price: `"-5,00€"` rewrites to `"-5.00"`, which `float()` reads as -5.0. */
  lemma SignedPriceExample()
    ensures NormalizePrice("-5,00€") == "-5.00"
    ensures ParseFloat(NormalizePrice("-5,00€")) == Some(-5.0)
  {
    NormalizeSignedExample("-5,00€");
    ParseSignedExample("-5.00");
  }

  lemma NormalizeSignedExample(s: string)
    requires s == "-5,00€"
    ensures NormalizePrice(s) == "-5.00"
  {
    assert OnePass("-5,00€") == "-5.00";
    NormalizeVia(s, "-5.00");
  }

  lemma ParseSignedExample(t: string)
    requires t == "-5.00"
    ensures ParseFloat(t) == Some(-5.0)
  {
    assert DigitsValue("5") == 5;
    assert DigitsValue("00") == 0;
    FiveExample("5.00");
    SignedParse('-', "5.00", 5.0, t);
  }

  lemma FiveExample(n: string)
    requires n == "5.00"
    ensures n != [] && !IsSpace(n[|n| - 1]) && !HasSeparator(n) && ParseDecimal(n) == Some(5.0)
  {
    assert n == "5" + "." + "00";
    NumeralUnstripped("5", "00");
    ParseDecimalPoint("5", "00");
    DecimalCents("5", "00", 5, 0);
  }

  /** Two worked examples: "1.234,56€" becomes "1234.56", which is 1234.56; "99,90€" is 99.9. */
  lemma ExamplePrices()
    ensures NormalizePrice("1.234,56€") == "1234.56"
    ensures ParseFloat(NormalizePrice("1.234,56€")) == Some(1234.56)
    ensures NormalizePrice("99,90€") == "99.90"
    ensures ParseFloat(NormalizePrice("99,90€")) == Some(99.9)
  {
    NormalizeThousandsExample("1.234,56€");
    ParseThousandsExample("1234.56");
    NormalizeCentsExample("99,90€");
    ParseCentsExample("99.90");
  }
}
