/**
 * The front side of the order-of-operations card (src/order-of-operations/front.js):
 * `initFrontSide` generates an expression with parentheses allowed, keeps it in the page's
 * store for the back side, and formats its powers as superscripts; the browser start-up
 * code reads the two configuration fields with their defaults.
 *
 * `localStorage` is a field that is `None` when the page has no storage.
 */
module OrderOfOperationsFront {
  import opened Wrappers
  import opened Js
  import opened OrderOfOperations

  const EXPRESSION_KEY_PREFIX: string := "tempExpression_"
  const DEFAULT_NUM_TERMS: int := 4

  /** `"tempExpression_" + uniquePart`: where the front leaves its expression for the back. */
  function ExpressionKey(uniquePart: string): (k: string)
    ensures |k| == |EXPRESSION_KEY_PREFIX| + |uniquePart|
    ensures k[..|EXPRESSION_KEY_PREFIX|] == EXPRESSION_KEY_PREFIX && k[|EXPRESSION_KEY_PREFIX|..] == uniquePart
  {
    EXPRESSION_KEY_PREFIX + uniquePart
  }

  /**
   * `parseInt(text.trim(), 10)`, replaced by 4 when it is NaN or not positive: the number
   * of terms is always positive, and it is the parsed one whenever that is.
   */
  function NumTermsOf(text: string): (n: int)
    ensures n >= 1
    ensures n == DEFAULT_NUM_TERMS || ParseInt(Trim(text)) == Some(n)
    ensures ParseInt(Trim(text)).Some? && ParseInt(Trim(text)).value > 0 ==> ParseInt(Trim(text)) == Some(n)
  {
    match ParseInt(Trim(text))
    case Some(v) => if v <= 0 then DEFAULT_NUM_TERMS else v
    case None => DEFAULT_NUM_TERMS
  }

  /** A field holding the numeral of a positive number configures exactly that many terms. */
  lemma NumTermsOfNumeral(m: nat)
    requires m >= 1
    ensures NumTermsOf(NatToString(m)) == m
  {
    TrimOfNumeral(m);
    ParseIntOfNatToString(m);
  }

  /** A field without any digit, an empty one included, falls back to four terms. */
  lemma NumTermsWithoutDigits(text: string)
    requires NoDigits(text)
    ensures NumTermsOf(text) == DEFAULT_NUM_TERMS
  {
    var a := TrimStart(text);
    NoDigitsSuffix(text, a);
    NoDigitsPrefix(a, TrimEnd(a));
    ParseIntWithoutDigits(Trim(text));
  }

  /** `text.trim().toLowerCase() === 'false' ? false : true`. */
  function IncludeExponentsOf(text: string): (b: bool)
    ensures !b <==> AsciiLower(Trim(text)) == "false"
  {
    AsciiLower(Trim(text)) != "false"
  }

  /** Exponents are left on by an empty field and switched off by "False" with spaces around it. */
  lemma IncludeExponentsExamples()
    ensures IncludeExponentsOf("")
    ensures !IncludeExponentsOf(" False ")
  {
    TrimStartStop("");
    TrimEndStop("");
    TrimPaddedFalse();
    LowerFalse();
  }

  lemma LowerFalse()
    ensures AsciiLower("False") == "false"
  {
  }

  lemma TrimPaddedFalse()
    ensures Trim(" False ") == "False"
  {
    TrimStartSkip(" False ");
    assert " False "[1..] == "False ";
    TrimStartStop("False ");
    TrimEndSkip("False ");
    assert "False "[..5] == "False";
    TrimEndStop("False");
  }

  /** The page of a card's front side, with the storage the script can reach. */
  class FrontPage {
    var localStorage: Option<map<string, string>>

    constructor (storage: Option<map<string, string>>)
      ensures localStorage == storage
    {
      localStorage := storage;
    }

    /**
     * `initFrontSide(numTerms, includeExponents, uniquePart)`: the expression is generated
     * with parentheses allowed, stored unchanged under its key when there is a store (and
     * nothing is written otherwise), and returned with its superscript formatting.
     */
    method InitFrontSide(numTerms: int, includeExponents: bool, uniquePart: string,
                         rnd: nat -> Unit53, k: nat)
      returns (expression: string, formattedExpression: string, next: nat)
      modifies this
      ensures Generates(expression, next, numTerms, true, includeExponents, rnd, k)
      ensures formattedExpression == Superscript(expression)
      ensures old(localStorage).None? ==> localStorage.None?
      ensures old(localStorage).Some? ==>
        localStorage == Some(old(localStorage).value[ExpressionKey(uniquePart) := expression])
    {
      expression, next := GenerateMathExpression(numTerms, true, includeExponents, rnd, k);
      var key := ExpressionKey(uniquePart);
      if localStorage.Some? {
        localStorage := Some(localStorage.value[key := expression]);
      }
      formattedExpression := Superscript(expression);
    }

    /**
     * The front branch of `browserInit`: both fields are read with their defaults, the card's
     * unique id is trimmed, and the question shows the formatted expression.
     */
    method BrowserInitFront(uniqueId: string, numTermsText: string, includeExponentsText: string,
                            rnd: nat -> Unit53, k: nat)
      returns (question: string, next: nat)
      modifies this
      ensures exists expression ::
        && Generates(expression, next, NumTermsOf(numTermsText), true, IncludeExponentsOf(includeExponentsText), rnd, k)
        && question == "Evaluate the expression: " + Superscript(expression)
        && (old(localStorage).Some? ==>
              localStorage == Some(old(localStorage).value[ExpressionKey(Trim(uniqueId)) := expression]))
      ensures old(localStorage).None? ==> localStorage.None?
    {
      var numTerms := NumTermsOf(numTermsText);
      var includeExponents := IncludeExponentsOf(includeExponentsText);
      var expression, formatted;
      expression, formatted, next := InitFrontSide(numTerms, includeExponents, Trim(uniqueId), rnd, k);
      question := "Evaluate the expression: " + formatted;
    }
  }
}
