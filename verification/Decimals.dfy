/** Decimal notation. */
module Decimals {
  // The digits of a number, without leading zeros.
  function Decimal(n: nat): (digits: string)
    ensures |digits| >= 1
  {
    if n < 10 then [('0' as int + n) as char] else Decimal(n / 10) + [('0' as int + n % 10) as char]
  }

  function Value(digits: string): nat {
    if digits == "" then 0
    else
      var last := digits[|digits| - 1] as int - '0' as int;
      10 * Value(digits[..|digits| - 1]) + if last < 0 then 0 else last
  }

  /** The printed number can be read back, so no two counts print alike. */
  lemma {:induction false} DecimalIsExact(n: nat)
    ensures Value(Decimal(n)) == n
    decreases n
  {
    if n >= 10 {
      DecimalIsExact(n / 10);
    } else {
      assert Decimal(n)[..0] == "";
    }
  }

  lemma {:induction false} LengthIsMonotone(a: nat, b: nat)
    requires a <= b
    ensures |Decimal(a)| <= |Decimal(b)|
    decreases b
  {
    if b >= 10 && a >= 10 {
      LengthIsMonotone(a / 10, b / 10);
    }
  }

  /** Adding fewer than the digits there are adds at most one digit; once it has, one more does not
      add another. */
  lemma {:induction false} LengthGrowsSlowly(a: nat, b: nat)
    requires a <= b <= a + |Decimal(a)| + 1
    ensures |Decimal(b)| <= |Decimal(a)| + 1
    decreases b
  {
    if b >= 10 && a >= 10 {
      assert b / 10 <= a / 10 + |Decimal(a / 10)| + 1;
      LengthGrowsSlowly(a / 10, b / 10);
    }
  }

  lemma {:induction false} DigitsOnly(n: nat)
    ensures forall c :: c in Decimal(n) ==> '0' <= c <= '9'
    decreases n
  {
    if n >= 10 {
      DigitsOnly(n / 10);
    }
  }
}
