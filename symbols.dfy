/** The anonymous-data-symbol test of `Tools/symbols.py`: compiler-generated
    data labels are `@` followed by a number, or string literals `@STRING@…`. */
module Symbols {
  import opened PyStr

  /** `is_anonymous_data_symbol(symbol)`. */
  predicate IsAnonymousDataSymbol(symbol: string) {
    if !("@" <= symbol) then false
    else if "@STRING@" <= symbol then true
    else DigitsFrom(symbol[1..])
  }

  /** The character loop of `is_anonymous_data_symbol`, returning early at the
      first non-digit. */
  predicate DigitsFrom(s: string) {
    |s| == 0 || (IsDigit(s[0]) && DigitsFrom(s[1..]))
  }

  lemma {:induction false} DigitsFromAllDigits(s: string)
    ensures DigitsFrom(s) <==> AllDigits(s)
    decreases |s|
  {
    if |s| > 0 {
      DigitsFromAllDigits(s[1..]);
      assert forall i :: 1 <= i < |s| ==> s[i] == s[1..][i - 1];
    }
  }

  /** The three cases of the test, stated on the characters of the symbol. */
  lemma AnonymousCases(symbol: string)
    ensures |symbol| == 0 || symbol[0] != '@' ==> !IsAnonymousDataSymbol(symbol)
    ensures "@STRING@" <= symbol ==> IsAnonymousDataSymbol(symbol)
    ensures |symbol| > 0 && symbol[0] == '@' && !("@STRING@" <= symbol) ==>
              (IsAnonymousDataSymbol(symbol) <==> forall i :: 1 <= i < |symbol| ==> IsDigit(symbol[i]))
  {
    if |symbol| > 0 {
      DigitsFromAllDigits(symbol[1..]);
      assert forall i :: 1 <= i < |symbol| ==> symbol[i] == symbol[1..][i - 1];
    }
  }

  /** `@` followed by any run of digits, the empty run included, is anonymous,
      and so is every string literal label. */
  lemma AnonymousExamples(digits: string, text: string)
    requires AllDigits(digits)
    ensures IsAnonymousDataSymbol("@" + digits)
    ensures IsAnonymousDataSymbol("@STRING@" + text)
    ensures IsAnonymousDataSymbol("@")
    ensures !IsAnonymousDataSymbol("@x" + digits)
  {
    AnonymousCases("@" + digits);
    AnonymousCases("@x" + digits);
    assert ("@" + digits)[1..] == digits;
    assert ("@x" + digits)[1] == 'x';
  }

}
