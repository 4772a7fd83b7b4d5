/**
Binary digits of unbounded naturals. Shifts are defined one digit at a time, so that facts about them
are linear; `ShiftLeftIsProduct` says what they mean.
*/
module Powers {

  /** `m` times `2^e`. */
  function ShiftLeft(m: nat, e: nat): (y: nat)
    ensures m > 0 ==> y > 0
  {
    if e == 0 then m else 2 * ShiftLeft(m, e - 1)
  }

  function Pow2(e: nat): (p: nat)
    ensures p > 0
  {
    ShiftLeft(1, e)
  }

  /** Drops the lowest `k` binary digits. */
  function ShiftRight(x: nat, k: nat): nat {
    if k == 0 then x else ShiftRight(x / 2, k - 1)
  }

  /** The lowest `k` binary digits. */
  function Low(x: nat, k: nat): (r: nat)
    ensures r < Pow2(k)
  {
    if k == 0 then 0 else 2 * Low(x / 2, k - 1) + x % 2
  }

  /** The number of binary digits. */
  function Bits(x: nat): (b: nat)
    ensures x == 0 <==> b == 0
    ensures x > 0 ==> Pow2(b - 1) <= x < Pow2(b)
  {
    if x == 0 then 0 else 1 + Bits(x / 2)
  }

  lemma {:induction false} ShiftLeftIsProduct(m: nat, e: nat)
    ensures ShiftLeft(m, e) == m * Pow2(e)
  {
    if e == 0 {
    } else {
      ShiftLeftIsProduct(m, e - 1);
    }
  }

  lemma {:induction false} ShiftLeftAdds(m: nat, n: nat, e: nat)
    ensures ShiftLeft(m + n, e) == ShiftLeft(m, e) + ShiftLeft(n, e)
  {
    if e == 0 {
    } else {
      ShiftLeftAdds(m, n, e - 1);
    }
  }

  lemma ShiftLeftMonotone(m: nat, n: nat, e: nat)
    requires m <= n
    ensures ShiftLeft(m, e) <= ShiftLeft(n, e)
  {
    ShiftLeftAdds(m, n - m, e);
  }

  lemma {:induction false} ShiftLeftTwice(m: nat, d: nat, e: nat)
    ensures ShiftLeft(ShiftLeft(m, d), e) == ShiftLeft(m, d + e)
  {
    if e == 0 {
    } else {
      ShiftLeftTwice(m, d, e - 1);
    }
  }

  lemma {:induction false} Pow2Monotone(d: nat, e: nat)
    requires d <= e
    ensures Pow2(d) <= Pow2(e)
    decreases e
  {
    if d < e { Pow2Monotone(d, e - 1); }
  }

  lemma {:induction false} SplitAt(x: nat, k: nat)
    ensures x == ShiftLeft(ShiftRight(x, k), k) + Low(x, k)
  {
    if k == 0 {
    } else {
      SplitAt(x / 2, k - 1);
    }
  }

  /** Two shifted numbers with small remainders are equal only if they agree. */
  lemma SplitUnique(q: nat, r: nat, k: nat)
    requires r < Pow2(k)
    ensures ShiftRight(ShiftLeft(q, k) + r, k) == q && Low(ShiftLeft(q, k) + r, k) == r
  {
    var t := ShiftRight(ShiftLeft(q, k) + r, k);
    SplitAt(ShiftLeft(q, k) + r, k);
    if t > q {
      ShiftLeftAdds(q, 1, k);
      ShiftLeftMonotone(q + 1, t, k);
    } else if t < q {
      ShiftLeftAdds(t, 1, k);
      ShiftLeftMonotone(t + 1, q, k);
    }
  }

  lemma BitsBound(x: nat, n: nat)
    requires x < Pow2(n)
    ensures Bits(x) <= n
  {
    if Bits(x) > n { Pow2Monotone(n, Bits(x) - 1); }
  }
}
