/** The parser of token lifetimes read from configuration. */
module ExpiresIn {
  import opened Wrappers
  import opened Strings

  /** A lifetime in seconds, a lifetime with a unit (`15m`, `7d`), or none. */
  datatype Lifetime = Seconds(n: nat) | WithUnit(text: string) | Unset

  predicate IsUnit(c: char) {
    c == 's' || c == 'm' || c == 'h' || c == 'd'
  }

  /** `/^\d+[smhd]$/`: one or more digits, then one unit letter. */
  predicate UnitForm(s: string) {
    |s| >= 2 && AllDigits(s[..|s| - 1]) && IsUnit(s[|s| - 1])
  }

  /**
   * `parseExpiresIn(value)`: digits only give that number, digits followed by one of
   * `s`, `m`, `h`, `d` are passed on as they are, and anything else (the empty or
   * missing string included) gives no lifetime.
   */
  function ParseExpiresIn(value: Option<string>): (r: Lifetime)
    ensures value.Some? && |value.value| > 0 && AllDigits(value.value) ==> r == Seconds(DigitsValue(value.value))
    ensures value.Some? && UnitForm(value.value) ==> r == WithUnit(value.value)
    ensures r == Unset <==> value.None? || value.value == "" || (!AllDigits(value.value) && !UnitForm(value.value))
    ensures r.WithUnit? ==> value.Some? && r.text == value.value && UnitForm(r.text)
  {
    if value.None? || value.value == "" then Unset
    else
      var s := value.value;
      if AllDigits(s) then Seconds(DigitsValue(s))
      else if UnitForm(s) then WithUnit(s)
      else Unset
  }

  /** The decimal text of a number parses back to that number; appending a unit keeps the text. */
  lemma ParseRoundTrip(n: nat, u: char)
    requires IsUnit(u)
    ensures ParseExpiresIn(Some(NatToString(n))) == Seconds(n)
    ensures ParseExpiresIn(Some(NatToString(n) + [u])) == WithUnit(NatToString(n) + [u])
  {
    NatToStringValue(n);
    var s := NatToString(n) + [u];
    assert s[..|s| - 1] == NatToString(n);
    assert !IsDigit(u);
  }
}
