/**
 * The few pieces of PHP's value semantics the product import relies on:
 * truthiness of strings, the decimal text PHP gives an integer when a
 * string is needed, and the `(int)` cast applied to the raw CSV fields.
 */
module PhpValues {

  /** PHP's truthiness of a string: only "" and "0" are falsy. */
  predicate Truthy(s: string) {
    s != "" && s != "0"
  }

  /** The characters PHP skips before a number and PCRE's `\s` matches. */
  predicate IsWhitespace(c: char) {
    c == ' ' || c == '\t' || c == '\n' || c == '\r' || c == '\U{B}' || c == '\U{C}'
  }

  predicate IsDigit(c: char) {
    '0' <= c <= '9'
  }

  predicate AllDigits(s: string) {
    forall i :: 0 <= i < |s| ==> IsDigit(s[i])
  }

  function DigitChar(d: nat): (c: char)
    requires d < 10
    ensures IsDigit(c) && DigitValue(c) == d
  {
    "0123456789"[d]
  }

  function DigitValue(c: char): nat
    requires IsDigit(c)
  {
    (c as int) - ('0' as int)
  }

  /** Decimal text of a natural number, as PHP prints it: no leading zeros. */
  function RenderNat(n: nat): (s: string)
    ensures |s| >= 1 && AllDigits(s)
    ensures s[0] == '0' <==> n == 0
    ensures n == 0 ==> s == "0"
  {
    if n < 10 then [DigitChar(n)] else RenderNat(n / 10) + [DigitChar(n % 10)]
  }

  /** Decimal text PHP gives an int in string context (`.`, preg_match). */
  function Render(n: int): (s: string)
    ensures |s| >= 1
    ensures n >= 0 ==> AllDigits(s) && (s[0] == '0' ==> s == "0")
    ensures n < 0 ==> s[0] == '-' && AllDigits(s[1..]) && |s| >= 2
  {
    if n < 0 then "-" + RenderNat(-n) else RenderNat(n)
  }

  /** Value of a string of digits, most significant first. */
  function DigitsValue(s: string): nat
    requires AllDigits(s)
  {
    if s == [] then 0 else 10 * DigitsValue(s[..|s| - 1]) + DigitValue(s[|s| - 1])
  }

  /** Number of leading decimal digits of `s`. */
  function LeadingDigitCount(s: string): (k: nat)
    ensures k <= |s|
    ensures forall i :: 0 <= i < k ==> IsDigit(s[i])
    ensures k < |s| ==> !IsDigit(s[k])
  {
    if s == [] || !IsDigit(s[0]) then 0 else 1 + LeadingDigitCount(s[1..])
  }

  function SkipWhitespace(s: string): (t: string)
    ensures |t| <= |s|
    ensures t == [] || !IsWhitespace(t[0])
  {
    if s != [] && IsWhitespace(s[0]) then SkipWhitespace(s[1..]) else s
  }

  /** Only leading whitespace is dropped: the result is a suffix of the input. */
  lemma {:induction false} SkipWhitespaceDropsOnlyWhitespace(s: string)
    ensures s[|s| - |SkipWhitespace(s)|..] == SkipWhitespace(s)
    ensures forall i :: 0 <= i < |s| - |SkipWhitespace(s)| ==> IsWhitespace(s[i])
  {
    if s != [] && IsWhitespace(s[0]) {
      SkipWhitespaceDropsOnlyWhitespace(s[1..]);
      assert s[1..][|s| - 1 - |SkipWhitespace(s)|..] == s[|s| - |SkipWhitespace(s)|..];
      forall i | 0 < i < |s| - |SkipWhitespace(s)| ensures IsWhitespace(s[i]) {
        assert s[i] == s[1..][i - 1];
      }
    }
  }

  /** Value of the longest run of digits at the start of `u` (0 if none). */
  function DigitPrefixValue(u: string): nat {
    DigitsValue(u[..LeadingDigitCount(u)])
  }

  /** Reads an optional sign, then the leading digits of what follows it. */
  function SignedValue(t: string): int {
    if t != [] && t[0] == '-' then -(DigitPrefixValue(t[1..]) as int)
    else if t != [] && t[0] == '+' then DigitPrefixValue(t[1..])
    else DigitPrefixValue(t)
  }

  /**
   * PHP's `(int)` cast of a string, restricted to its integer reading:
   * leading whitespace, an optional sign, then the longest run of digits;
   * whatever follows is ignored, and no digits at all give 0.
   */
  function IntCast(s: string): int {
    SignedValue(SkipWhitespace(s))
  }

  lemma {:induction false} DigitsValueOfRender(n: nat)
    ensures DigitsValue(RenderNat(n)) == n
  {
    var s := RenderNat(n);
    if n < 10 {
      assert s[..0] == [];
    } else {
      DigitsValueOfRender(n / 10);
      assert s[..|s| - 1] == RenderNat(n / 10);
    }
  }

  lemma {:induction false} LeadingDigitsOfDigits(s: string)
    requires AllDigits(s)
    ensures LeadingDigitCount(s) == |s|
  {
    if s != [] {
      LeadingDigitsOfDigits(s[1..]);
    }
  }

  /** The leading digits of `d + t` are exactly `d` when `t` does not start with a digit. */
  lemma {:induction false} LeadingDigitsOfDigitsThen(d: string, t: string)
    requires AllDigits(d)
    requires t == [] || !IsDigit(t[0])
    ensures LeadingDigitCount(d + t) == |d|
  {
    if d != [] {
      assert (d + t)[1..] == d[1..] + t;
      LeadingDigitsOfDigitsThen(d[1..], t);
    } else {
      assert d + t == t;
    }
  }

  /** Whitespace in front of text that does not start with whitespace is skipped entirely. */
  lemma {:induction false} SkipWhitespaceOfPadded(w: string, u: string)
    requires forall i :: 0 <= i < |w| ==> IsWhitespace(w[i])
    requires u == [] || !IsWhitespace(u[0])
    ensures SkipWhitespace(w + u) == u
  {
    if w != [] {
      assert (w + u)[0] == w[0];
      assert (w + u)[1..] == w[1..] + u;
      SkipWhitespaceOfPadded(w[1..], u);
    } else {
      assert w + u == u;
    }
  }

  /** The digits of a natural number followed by a non-digit read as that number. */
  lemma DigitPrefixOfRenderThen(n: nat, t: string)
    requires t == [] || !IsDigit(t[0])
    ensures DigitPrefixValue(RenderNat(n) + t) == n
  {
    var d := RenderNat(n);
    LeadingDigitsOfDigitsThen(d, t);
    assert (d + t)[..|d|] == d;
    DigitsValueOfRender(n);
  }

  /** An int's text followed by a non-digit reads, sign included, as that int. */
  lemma SignedValueOfRenderThen(n: int, t: string)
    requires t == [] || !IsDigit(t[0])
    ensures SignedValue(Render(n) + t) == n
  {
    if n < 0 {
      NegativeSignedValue(-n, t);
    } else {
      var u := RenderNat(n) + t;
      assert u[0] == RenderNat(n)[0];
      DigitPrefixOfRenderThen(n, t);
    }
  }

  lemma NegativeSignedValue(m: nat, t: string)
    requires t == [] || !IsDigit(t[0])
    ensures SignedValue("-" + RenderNat(m) + t) == -(m as int)
  {
    var u := "-" + RenderNat(m) + t;
    assert u[0] == '-';
    assert u[1..] == RenderNat(m) + t;
    DigitPrefixOfRenderThen(m, t);
  }

  /**
   * The cast of a field that holds an int's text between leading whitespace
   * and any text not starting with a digit is that int: a decimal keeps its
   * integer part and trailing text is ignored.
   */
  lemma CastReadsLeadingInt(w: string, n: int, t: string)
    requires forall i :: 0 <= i < |w| ==> IsWhitespace(w[i])
    requires t == [] || !IsDigit(t[0])
    ensures IntCast(w + Render(n) + t) == n
  {
    var u := Render(n) + t;
    assert w + Render(n) + t == w + u;
    assert u[0] == Render(n)[0];
    SkipWhitespaceOfPadded(w, u);
    SignedValueOfRenderThen(n, t);
  }

  /** Casting the text of an int back gives the int: `(int)(string)$n == $n`. */
  lemma CastOfRender(n: int)
    ensures IntCast(Render(n)) == n
  {
    assert Render(n) == [] + Render(n) + [];
    CastReadsLeadingInt([], n, []);
  }

  /** Every int followed by a decimal point and any fraction casts to that int. */
  lemma CastKeepsIntegerPart(n: int, fraction: string)
    ensures IntCast(Render(n) + "." + fraction) == n
  {
    assert Render(n) + "." + fraction == [] + Render(n) + ("." + fraction);
    CastReadsLeadingInt([], n, "." + fraction);
  }

  /**
   * A field whose first character after the whitespace is neither a digit
   * nor a sign followed by a digit casts to 0.
   */
  lemma CastOfTextWithoutNumber(w: string, t: string)
    requires forall i :: 0 <= i < |w| ==> IsWhitespace(w[i])
    requires t == [] || (!IsDigit(t[0]) && !IsWhitespace(t[0]))
    requires |t| >= 2 && (t[0] == '-' || t[0] == '+') ==> !IsDigit(t[1])
    ensures IntCast(w + t) == 0
  {
    SkipWhitespaceOfPadded(w, t);
    if t != [] && (t[0] == '-' || t[0] == '+') {
      assert t[1..][..0] == [];
    } else {
      assert t[..0] == [];
    }
  }

  /** The cast keeps the integer part of a decimal number: `(int)"12.34"` is 12. */
  lemma CastTruncatesDecimal()
    ensures IntCast("12.34") == 12
  {
    assert Render(12) == "12" by {
      assert RenderNat(1) == "1";
    }
    assert "12.34" == Render(12) + "." + "34";
    CastKeepsIntegerPart(12, "34");
  }

  /** The cast reads a minus sign. */
  lemma CastNegative()
    ensures IntCast("-3") == -3
  {
    assert Render(-3) == "-3";
    assert "-3" == [] + Render(-3) + [];
    CastReadsLeadingInt([], -3, []);
  }

  /** The cast skips leading whitespace. */
  lemma CastSkipsWhitespace()
    ensures IntCast(" 7") == 7
  {
    assert Render(7) == "7";
    assert " 7" == " " + Render(7) + [];
    CastReadsLeadingInt(" ", 7, []);
  }

  /** Text without leading digits casts to 0. */
  lemma CastOfNonNumeric()
    ensures IntCast("abc") == 0
    ensures IntCast("") == 0
  {
    CastOfTextWithoutNumber([], "abc");
    assert [] + "abc" == "abc";
    CastOfTextWithoutNumber([], []);
  }
}
