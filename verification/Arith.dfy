/** Small facts of non-linear arithmetic, each stated where the solver sees nothing else. */
module Arith {
  lemma DivMod(x: int, d: nat)
    requires d > 0
    ensures x == (x / d) * d + x % d && 0 <= x % d < d
  {
  }

  lemma MulAtLeast(k: int, d: nat)
    requires k >= 1
    ensures k * d >= d
  {
  }

  lemma Distribute(a: int, b: int, d: int)
    ensures (a - b) * d == a * d - b * d && (a + b) * d == a * d + b * d
  {
  }

  lemma Scale(a: int, b: int, k: nat)
    requires a <= b
    ensures a * k <= b * k
  {
  }

  /** The quotient and remainder of Euclidean division are unique. */
  lemma DivUnique(x: int, d: nat, q: int, r: int)
    requires d > 0 && x == q * d + r && 0 <= r < d
    ensures x / d == q && x % d == r
  {
    DivMod(x, d);
    var k := x / d;
    Distribute(k, q, d);
    if k > q {
      MulAtLeast(k - q, d);
    } else if k < q {
      Distribute(q, k, d);
      MulAtLeast(q - k, d);
    }
  }

  /** Counting modulo d. */
  lemma ModSucc(m: nat, d: nat)
    requires d > 1
    ensures (m % d + 1) % d == (m + 1) % d
  {
    DivMod(m, d);
    var q, r := m / d, m % d;
    if r + 1 < d {
      DivUnique(m + 1, d, q, r + 1);
      DivUnique(r + 1, d, 0, r + 1);
    } else {
      Distribute(q, 1, d);
      DivUnique(m + 1, d, q + 1, 0);
      DivUnique(r + 1, d, 1, 0);
    }
  }

  lemma PositiveFactor(x: int, d: nat)
    requires x * d > 0
    ensures x >= 1
  {
  }

  /** Numbers with the same remainder are equal or at least the divisor apart. */
  lemma SameRemainder(j: nat, k: nat, d: nat)
    requires d > 0 && j < k && j % d == k % d
    ensures k - j >= d
  {
    DivMod(j, d);
    DivMod(k, d);
    var p, q := j / d, k / d;
    Distribute(q, p, d);
    PositiveFactor(q - p, d);
    MulAtLeast(q - p, d);
  }

  /** Halving and then dividing is dividing by twice as much. */
  lemma DivTwice(x: nat, p: nat)
    requires p > 0
    ensures x / 2 / p == x / (2 * p)
  {
    var h := x / 2;
    var q, r := h / p, h % p;
    DivMod(h, p);
    assert q * (2 * p) == 2 * (q * p);
    DivUnique(x, 2 * p, q, 2 * r + x % 2);
  }

  lemma MulDouble(v: nat, p: nat)
    ensures 2 * v * p == v * (2 * p)
  {
  }

  lemma Rescale(a: nat, c: nat)
    ensures 256 * (a * c) == a * (256 * c)
  {
  }

  /** A larger leading digit outweighs everything after it. */
  lemma DigitDominates(a: nat, b: nat, c: nat)
    requires a < b
    ensures a * c + c <= b * c
  {
    Scale(a + 1, b, c);
    Distribute(a, 1, c);
  }

  function Pow2(n: nat): (p: nat)
    ensures p > 0
  {
    if n == 0 then 1 else 2 * Pow2(n - 1)
  }

  lemma {:induction false} Pow2Grows(m: nat, n: nat)
    requires m <= n
    ensures Pow2(m) <= Pow2(n)
    decreases n
  {
    if m == n {
    } else {
      Pow2Grows(m, n - 1);
    }
  }
}
