/** The few facts about products the amount and window lemmas share. */
module Arithmetic {

  lemma DistributeSum(x: int, y: int, p: int)
    ensures (x + y) * p == x * p + y * p && (x - y) * p == x * p - y * p
  {}

  lemma MulAtLeast(x: nat, p: nat)
    requires x >= 1
    ensures x * p >= p
  {}

  /** Quotient and remainder are determined. */
  lemma SplitUnique(q: nat, r: nat, q': nat, r': nat, p: nat)
    requires r < p && r' < p && q * p + r == q' * p + r'
    ensures q == q' && r == r'
  {
    if q < q' {
      MulAtLeast(q' - q, p);
      DistributeSum(q', q, p);
    } else if q' < q {
      MulAtLeast(q - q', p);
      DistributeSum(q, q', p);
    }
  }
}
