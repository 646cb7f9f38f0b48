/** The few facts about products and quotients that segment arithmetic needs. */
module Arith {

  lemma {:induction false} MulMonotone(a: int, b: int, k: int)
    ensures a <= b && 0 <= k ==> a * k <= b * k
  {
  }

  /** Quotient and remainder are determined by the division equation. */
  lemma {:induction false} DivUnique(a: int, b: int, q: int, r: int)
    requires 0 < b && a == q * b + r && 0 <= r < b
    ensures a / b == q && a % b == r
  {
    var q' := a / b;
    assert q' * b <= a < q' * b + b;
    MulMonotone(q + 1, q', b);
    MulMonotone(q' + 1, q, b);
  }

  /** Dividing twice is dividing by the product. */
  lemma {:induction false} DivDiv(a: nat, b: nat, c: nat, bc: nat)
    requires 0 < b && 0 < c && b * c == bc && 0 < bc
    ensures a / b / c == a / bc
    ensures a / b % c == a % bc / b
  {
    var q, r := a / bc, a % bc;
    var u, v := r / b, r % b;
    assert r == u * b + v;
    MulMonotone(c, u, b);
    assert u < c;
    var m := q * c + u;
    assert a == m * b + v by {
      assert a == q * bc + r;
      MulAssoc(q, c, b);
      assert m * b == (q * c) * b + u * b;
    }
    DivUnique(a, b, m, v);
    DivUnique(m, c, q, u);
  }

  lemma {:induction false} MulAssoc(x: int, y: int, z: int)
    ensures (x * y) * z == x * (z * y)
  {
  }

  /** A quotient is monotone in the dividend. */
  lemma {:induction false} DivMonotone(a: int, b: int, k: int)
    requires a <= b && 0 < k
    ensures a / k <= b / k
  {
    MulMonotone(b / k + 1, a / k, k);
  }

  /** A quotient is antitone in the divisor. */
  lemma {:induction false} DivAntitone(a: nat, k: int, m: int)
    requires 0 < k <= m
    ensures a / m <= a / k
  {
    var q := a / m;
    MulMonotone(k, m, q);
    MulMonotone(a / k + 1, q, k);
  }

  /** The unit holding b - 1, for b > 0: one before b's unit exactly when b starts a unit. */
  lemma {:induction false} PredecessorUnit(b: int, k: int)
    requires 0 < k && 0 < b
    ensures b % k == 0 ==> 0 < b / k && (b - 1) / k == b / k - 1
    ensures b % k != 0 ==> (b - 1) / k == b / k
  {
    var q, r := b / k, b % k;
    assert b == q * k + r;
    if r == 0 {
      MulMonotone(q, 0, k);
      DivUnique(b - 1, k, q - 1, k - 1);
    } else {
      DivUnique(b - 1, k, q, r - 1);
    }
  }

  /** Every unit between a's and z's holds a point of [a, z]. */
  lemma {:induction false} UnitWitness(n: int, a: int, z: int, k: int) returns (x: int)
    requires 0 < k && a <= z && a / k <= n <= z / k
    ensures a <= x <= z && x / k == n
  {
    if n == a / k {
      x := a;
    } else {
      MulMonotone(n, z / k, k);
      MulMonotone(a / k + 1, n, k);
      x := n * k;
      DivUnique(x, k, n, 0);
    }
  }

  /** Comparing quotients first and remainders second is comparing the numbers. */
  lemma {:induction false} SplitOrder(x: int, y: int, n: int)
    requires 0 < n
    ensures x < y <==> x / n < y / n || (x / n == y / n && x % n < y % n)
    ensures x == y <==> x / n == y / n && x % n == y % n
  {
    assert x == x / n * n + x % n && y == y / n * n + y % n;
    MulMonotone(x / n + 1, y / n, n);
    MulMonotone(y / n + 1, x / n, n);
  }
}
