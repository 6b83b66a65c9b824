/** Natural numbers in decimal. */
module Decimals {
  import opened Wrappers

  function Digit(d: nat): char
    requires d < 10
  {
    ('0' as int + d) as char
  }

  /** `str(n)`. */
  function Decimal(n: nat): string {
    if n < 10 then [Digit(n)] else Decimal(n / 10) + [Digit(n % 10)]
  }

  lemma KnownDecimals()
    ensures Decimal(0) == "0" && Decimal(9) == "9" && Decimal(10) == "10" && Decimal(205) == "205"
  {
    assert Decimal(2) == "2" && Decimal(1) == "1";
    assert Decimal(20) == Decimal(2) + "0";
  }

  /** `int(s)` of plain digits; every other spelling is refused here. */
  function ParseDecimal(s: string): Option<nat> {
    if s == "" then None
    else
      var d := s[|s| - 1];
      if !('0' <= d <= '9') then None
      else if |s| == 1 then Some(d as nat - '0' as nat)
      else
        var front := ParseDecimal(s[..|s| - 1]);
        if front.None? then None else Some(front.value * 10 + (d as nat - '0' as nat))
  }

  lemma {:induction false} DecimalRoundTrip(n: nat)
    ensures ParseDecimal(Decimal(n)) == Some(n) && Decimal(n) != "" && '$' !in Decimal(n)
  {
    if n >= 10 {
      DecimalRoundTrip(n / 10);
      assert Decimal(n)[..|Decimal(n)| - 1] == Decimal(n / 10);
    }
  }
}
