/** Money arithmetic of the cancellation controller. Amounts are integer paise
    (hundredths of a rupee), so rounding to two decimal places of a rupee is rounding
    to a whole number of paise. */
module Money {

  type Paise = int

  /** The integer nearest to n / 100, halves rounded away from zero: what
      `Number(x.toFixed(2))` does to an amount of rupees x = n / 10000 when the result
      is read back in paise. */
  function RoundHundredths(n: int): (r: int)
    ensures n >= 0 ==> -50 <= n - 100 * r < 50
    ensures n < 0 ==> -50 < n - 100 * r <= 50
  {
    if n >= 0 then (n + 50) / 100 else -((-n + 50) / 100)
  }

  /** `round2(paidAmount * penalty_percent / 100)`, in paise. */
  function Penalty(paid: Paise, percent: int): Paise
  {
    RoundHundredths(paid * percent)
  }

  /** `round2(paidAmount - penaltyAmount)`, in paise. */
  function Refund(paid: Paise, penalty: Paise): Paise
  {
    RoundHundredths(100 * (paid - penalty))
  }

  /** Rounding an amount that is already a whole number of paise changes nothing. */
  lemma RoundWholePaise(k: int)
    ensures RoundHundredths(100 * k) == k
  {
  }

  /** The refund absorbs the rounding of the penalty: penalty and refund add up to the
      paid amount exactly, whatever the percentage. */
  lemma PenaltyPlusRefund(paid: Paise, percent: int)
    ensures Penalty(paid, percent) + Refund(paid, Penalty(paid, percent)) == paid
  {
    RoundWholePaise(paid - Penalty(paid, percent));
  }

  /** With a percentage between 0 and 100 the penalty lies between nothing and the
      whole paid amount, and the refund is never negative. */
  lemma {:induction false} PenaltyBounds(paid: Paise, percent: int)
    requires paid >= 0 && 0 <= percent <= 100
    ensures 0 <= Penalty(paid, percent) <= paid
    ensures 0 <= Refund(paid, Penalty(paid, percent)) <= paid
  {
    var n := paid * percent;
    assert 0 <= n <= paid * 100 by {
      assert paid * percent <= paid * 100 by {
        assert paid * (100 - percent) >= 0;
      }
    }
    PenaltyPlusRefund(paid, percent);
  }

  /** Rs 3000.00 paid, 20 % penalty: penalty Rs 600.00, refund Rs 2400.00. */
  lemma PenaltyExample()
    ensures Penalty(300000, 20) == 60000
    ensures Refund(300000, 60000) == 240000
  {
  }
}
