/**
  Binomial coefficients and the upper tail of the binomial distribution with
  success probability 1/2, kept as exact natural numbers: the tail of
  Binomial(n, 1/2) from c upwards is Tail(n, c) / Pow2(n).
 */
module Binomial {

  /** C(n, k) by Pascal's rule; zero when k > n. */
  function Choose(n: nat, k: nat): nat
  {
    if k == 0 then 1
    else if n == 0 then 0
    else Choose(n - 1, k - 1) + Choose(n - 1, k)
  }

  /** 2^n, the number of equally likely outcomes of n fair rounds. */
  function Pow2(n: nat): (r: nat)
    ensures r >= 1
  {
    if n == 0 then 1 else 2 * Pow2(n - 1)
  }

  /** Sum of C(n, k) for k = c .. n: the outcomes of n rounds with at least c successes. */
  function Tail(n: nat, c: nat): nat
    decreases n + 1 - c
  {
    if c > n then 0 else Choose(n, c) + Tail(n, c + 1)
  }

  lemma {:induction false} ChooseAbove(n: nat, k: nat)
    requires k > n
    ensures Choose(n, k) == 0
  {
    if n > 0 {
      ChooseAbove(n - 1, k - 1);
      ChooseAbove(n - 1, k);
    }
  }

  lemma {:induction false} ChoosePositive(n: nat, k: nat)
    requires k <= n
    ensures Choose(n, k) >= 1
  {
    if k > 0 {
      ChoosePositive(n - 1, k - 1);
    }
  }

  lemma {:induction false} ChooseDiagonal(n: nat)
    ensures Choose(n, n) == 1
  {
    if n > 0 {
      ChooseDiagonal(n - 1);
      ChooseAbove(n - 1, n);
    }
  }

  /** Pascal's rule lifted to tails: an outcome of n + 1 rounds with at least c
      successes is one of n rounds with at least c, or at least c - 1, followed
      by a failure or a success. */
  lemma {:induction false} TailPascal(n: nat, c: nat)
    requires c >= 1
    ensures Tail(n + 1, c) == Tail(n, c) + Tail(n, c - 1)
    decreases n + 2 - c
  {
    if c <= n + 1 {
      TailPascal(n, c + 1);
      if c == n + 1 {
        ChooseAbove(n, c);
      }
    }
  }

  /** The full row sums to 2^n. */
  lemma {:induction false} TailFromZero(n: nat)
    ensures Tail(n, 0) == Pow2(n)
  {
    if n > 0 {
      TailFromZero(n - 1);
      TailPascal(n - 1, 1);
    }
  }

  /** Only the outcome with every round a success reaches the top. */
  lemma TailAtTop(n: nat)
    ensures Tail(n, n) == 1
  {
    ChooseDiagonal(n);
  }

  /** Raising the threshold by one removes exactly the C(n, c) outcomes with c
      successes, which is at least one while c <= n. */
  lemma TailStep(n: nat, c: nat)
    ensures c <= n ==> Tail(n, c + 1) < Tail(n, c)
    ensures c > n ==> Tail(n, c) == 0
  {
    if c <= n {
      ChoosePositive(n, c);
    }
  }

  /** The tail never grows as the threshold rises. */
  lemma {:induction false} TailAntitone(n: nat, c: nat, d: nat)
    requires c <= d
    ensures Tail(n, d) <= Tail(n, c)
    decreases d - c
  {
    if c < d {
      TailAntitone(n, c + 1, d);
      TailStep(n, c);
    }
  }

  /** Between one outcome and all 2^n of them while c <= n. */
  lemma TailBounds(n: nat, c: nat)
    requires c <= n
    ensures 1 <= Tail(n, c) <= Pow2(n)
  {
    TailAntitone(n, 0, c);
    TailFromZero(n);
    TailAntitone(n, c, n);
    TailAtTop(n);
  }
}
