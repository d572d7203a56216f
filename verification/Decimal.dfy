/** Transaction group numbers travel as decimal text in the property maps; this is the text and
    the 64-bit `strconv.ParseInt` that reads it back. */
module Decimal {
  import opened Pools

  predicate IsDigit(c: char) { '0' <= c <= '9' }

  predicate AllDigits(s: string) { forall i | 0 <= i < |s| :: IsDigit(s[i]) }

  function DigitsValue(s: string): nat
    requires AllDigits(s)
  {
    if s == "" then 0 else 10 * DigitsValue(s[..|s| - 1]) + (s[|s| - 1] as int - '0' as int)
  }

  /** Base 10, 64 bits: an optional sign, at least one digit, nothing else, and in range. */
  function ParseInt(s: string): (r: Option<int>)
  {
    var digits := if s != "" && (s[0] == '+' || s[0] == '-') then s[1..] else s;
    if digits == "" || !AllDigits(digits) then None
    else
      var v: int := DigitsValue(digits);
      if s[0] == '-' then (if v <= TXG_LIMIT then Some(-v) else None)
      else if v < TXG_LIMIT then Some(v) else None
  }

  function Format(n: nat): (s: string)
    ensures s != "" && AllDigits(s)
  {
    var last := [('0' as int + n % 10) as char];
    if n < 10 then last else Format(n / 10) + last
  }

  lemma {:induction false} FormatValue(n: nat)
    ensures DigitsValue(Format(n)) == n
  {
    var s := Format(n);
    assert s[|s| - 1] as int == '0' as int + n % 10;
    if n >= 10 {
      assert s[..|s| - 1] == Format(n / 10);
      FormatValue(n / 10);
    }
  }

  /** What the backend prints, the sort reads back unchanged. */
  lemma ParseFormat(t: Txg)
    ensures ParseInt(Format(t)) == Some(t)
  {
    var s := Format(t);
    assert IsDigit(s[0]);
    FormatValue(t);
  }
}
