/** Event ids as text: JavaScript's `String(id)` and the `BigInt(text)` that reads it back. */
module Decimal {
  import opened Prelude

  const DIGITS := "0123456789"

  function ToDecimal(n: nat): string {
    if n < 10 then [DIGITS[n]] else ToDecimal(n / 10) + [DIGITS[n % 10]]
  }

  predicate IsDigit(c: char) { '0' <= c <= '9' }

  /** The value of a string of decimal digits; other spellings are not read. */
  function ParseDecimal(s: string): Option<nat> {
    if s == "" || !IsDigit(s[|s| - 1]) then None
    else
      var d := s[|s| - 1] as int - '0' as int;
      if |s| == 1 then Some(d)
      else
        match ParseDecimal(s[..|s| - 1])
        case None => None
        case Some(n) => Some(10 * n + d)
  }

  lemma DigitReadsBack(d: nat)
    requires d < 10
    ensures IsDigit(DIGITS[d]) && DIGITS[d] as int - '0' as int == d
  {
  }

  lemma {:induction false} ParseUndoesToDecimal(n: nat)
    ensures ParseDecimal(ToDecimal(n)) == Some(n)
  {
    DigitReadsBack(n % 10);
    if n >= 10 {
      ParseUndoesToDecimal(n / 10);
      var s := ToDecimal(n);
      assert s[..|s| - 1] == ToDecimal(n / 10) && s[|s| - 1] == DIGITS[n % 10];
    }
  }

  lemma ToDecimalIsInjective(m: nat, n: nat)
    requires ToDecimal(m) == ToDecimal(n)
    ensures m == n
  {
    ParseUndoesToDecimal(m);
    ParseUndoesToDecimal(n);
  }

  lemma {:induction false} ToDecimalIsDigits(n: nat)
    ensures ToDecimal(n) != "" && forall i :: 0 <= i < |ToDecimal(n)| ==> IsDigit(ToDecimal(n)[i])
  {
    DigitReadsBack(n % 10);
    if n >= 10 {
      ToDecimalIsDigits(n / 10);
    }
  }

  /** Exactly the non-empty strings of digits are read. */
  lemma {:induction false} ReadsExactlyDigits(s: string)
    ensures ParseDecimal(s).Some? <==> s != "" && forall i :: 0 <= i < |s| ==> IsDigit(s[i])
  {
    if |s| > 1 {
      var front := s[..|s| - 1];
      ReadsExactlyDigits(front);
      assert forall i :: 0 <= i < |front| ==> front[i] == s[i];
    }
  }

  /** Leading zeros do not matter, so a string of digits is read as the number it spells. */
  lemma {:induction false} LeadingZerosAreIgnored(s: string)
    requires s != ""
    ensures ParseDecimal("0" + s) == ParseDecimal(s)
  {
    var longer := "0" + s;
    assert longer[|longer| - 1] == s[|s| - 1];
    if |s| == 1 {
      assert longer[..1] == "0";
    } else {
      LeadingZerosAreIgnored(s[..|s| - 1]);
      assert longer[..|longer| - 1] == "0" + s[..|s| - 1];
    }
  }
}
