/**
 * The three field rules a product is checked against, as local predicates.
 * Each rule sees what the validator sees: the code string, or the decimal
 * text PHP produces for the cast stock or cost integer.
 */
module Rules {
  import opened PhpValues

  /** Exact membership of a code in the codes accepted earlier in the run. */
  predicate IsKnownCode(code: string, previousEntries: seq<string>) {
    code in previousEntries
  }

  /** No character that PCRE's `\s` matches. */
  predicate NoWhitespace(s: string) {
    forall i :: 0 <= i < |s| ==> !IsWhitespace(s[i])
  }

  /** An integer literal: an optional minus sign and at least one digit. */
  predicate IsIntegerLiteral(s: string) {
    if s != [] && s[0] == '-' then |s| >= 2 && AllDigits(s[1..])
    else |s| >= 1 && AllDigits(s)
  }

  /** The stock rule: an integer with no whitespace. */
  predicate StockRulePasses(s: string) {
    IsIntegerLiteral(s) && NoWhitespace(s)
  }

  /** `0|([1-9]\d*)`: a lone zero, or digits without a leading zero. */
  predicate IsIntegerPart(s: string) {
    AllDigits(s) && (s == "0" || (|s| >= 1 && s[0] != '0'))
  }

  /** `(\.\d{1,2})?`: nothing, or a point followed by one or two digits. */
  predicate IsFractionPart(s: string) {
    s == [] || (s[0] == '.' && 2 <= |s| <= 3 && AllDigits(s[1..]))
  }

  /**
   * The pattern anchored at both ends. The integer part can only be the
   * whole run of leading digits, since what follows it is a point or the end.
   */
  predicate MatchesCostBody(s: string) {
    var k := LeadingDigitCount(s);
    IsIntegerPart(s[..k]) && IsFractionPart(s[k..])
  }

  /**
   * `/^(0|([1-9]\d*))(\.\d{1,2})?$/`. Without the D modifier PCRE's `$`
   * also matches just before a final newline, so one is allowed.
   */
  predicate MatchesCostPattern(s: string) {
    MatchesCostBody(s) || (|s| >= 1 && s[|s| - 1] == '\n' && MatchesCostBody(s[..|s| - 1]))
  }

  /** The cost rule: the pattern matches and there is no whitespace. */
  predicate CostRulePasses(s: string) {
    MatchesCostPattern(s) && NoWhitespace(s)
  }

  lemma RenderHasNoWhitespace(n: int)
    ensures NoWhitespace(Render(n))
  {
    var s := Render(n);
    forall i | 0 <= i < |s| ensures !IsWhitespace(s[i]) {
      if n < 0 && i > 0 {
        assert s[i] == s[1..][i - 1];
      }
    }
  }

  /** Stock is an int by construction, so its integer rule never fails. */
  lemma StockRuleAcceptsEveryInt(n: int)
    ensures StockRulePasses(Render(n))
  {
    RenderHasNoWhitespace(n);
  }

  /** On the text of an int the cost rule fails exactly for negative ints. */
  lemma CostRuleAcceptsExactlyNonNegative(n: int)
    ensures CostRulePasses(Render(n)) <==> n >= 0
  {
    var s := Render(n);
    RenderHasNoWhitespace(n);
    if n >= 0 {
      LeadingDigitsOfDigits(s);
      assert s[..|s|] == s && s[|s|..] == [];
    } else {
      assert LeadingDigitCount(s) == 0;
      assert s[..0] == [];
      assert s[|s| - 1] == s[1..][|s| - 2];
    }
  }

  /** Texts the cost pattern accepts. */
  lemma CostPatternAccepts()
    ensures MatchesCostPattern("0")
    ensures MatchesCostPattern("12")
    ensures MatchesCostPattern("12.3")
    ensures MatchesCostPattern("12.34")
  {
    assert LeadingDigitCount("0") == 1 by { assert "0"[1..] == []; }
    assert "0"[..1] == "0" && "0"[1..] == [];
    assert LeadingDigitCount("12") == 2 by { assert "12"[1..] == "2" && "2"[1..] == []; }
    assert "12"[..2] == "12" && "12"[2..] == [];
    assert LeadingDigitCount("12.3") == 2 by { assert "12.3"[1..] == "2.3" && "2.3"[1..] == ".3"; }
    assert "12.3"[..2] == "12" && "12.3"[2..] == ".3" && ".3"[1..] == "3";
    assert LeadingDigitCount("12.34") == 2 by { assert "12.34"[1..] == "2.34" && "2.34"[1..] == ".34"; }
    assert "12.34"[..2] == "12" && "12.34"[2..] == ".34" && ".34"[1..] == "34";
  }

  /** Texts the cost pattern rejects: leading zeros, three decimals, a bare point, nothing. */
  lemma CostPatternRejects()
    ensures !MatchesCostPattern("00")
    ensures !MatchesCostPattern("012")
    ensures !MatchesCostPattern("12.345")
    ensures !MatchesCostPattern("12.")
    ensures !MatchesCostPattern("")
  {
    assert LeadingDigitCount("00") == 2 by { assert "00"[1..] == "0" && "0"[1..] == []; }
    assert "00"[..2] == "00";
    assert LeadingDigitCount("012") == 3 by { assert "012"[1..] == "12" && "12"[1..] == "2" && "2"[1..] == []; }
    assert "012"[..3] == "012";
    assert LeadingDigitCount("12.345") == 2 by { assert "12.345"[1..] == "2.345" && "2.345"[1..] == ".345"; }
    assert "12.345"[..2] == "12" && "12.345"[2..] == ".345";
    assert LeadingDigitCount("12.") == 2 by { assert "12."[1..] == "2." && "2."[1..] == "."; }
    assert "12."[..2] == "12" && "12."[2..] == ".";
    assert ""[..0] == [];
  }

  /** PCRE's `$` lets a single trailing newline through the pattern (not the whitespace rule). */
  lemma CostPatternAllowsFinalNewline()
    ensures MatchesCostPattern("12\n")
    ensures !CostRulePasses("12\n")
  {
    var s := "12\n";
    assert s[..|s| - 1] == "12";
    assert LeadingDigitCount("12") == 2 by { assert "12"[1..] == "2" && "2"[1..] == []; }
    assert "12"[..2] == "12" && "12"[2..] == [];
    assert IsWhitespace(s[2]);
  }
}
