/** Facts about the row-major index arithmetic of small arrays. */
module Arith {

  lemma MulLe(p: nat, q: nat, r: nat)
    requires p <= q
    ensures p * r <= q * r
  {
  }

  /** A cell (x, y) of an a-by-b grid flattens to an index inside the grid. */
  lemma FlatBound(x: nat, a: nat, y: nat, b: nat)
    requires x < a && y < b
    ensures x * b + y < a * b
  {
    assert x * b + y < (x + 1) * b;
    MulLe(x + 1, a, b);
  }

  /** Dividing a flattened index by the row length recovers row and column. */
  lemma FlatSplit(x: nat, y: nat, b: nat)
    requires y < b
    ensures (x * b + y) / b == x && (x * b + y) % b == y
  {
    var n := x * b + y;
    var q, r := n / b, n % b;
    assert q * b + r == n;
    if q > x {
      MulLe(x + 1, q, b);
      assert false;
    } else if q < x {
      MulLe(q + 1, x, b);
      assert false;
    }
  }

  lemma DivBound(n: nat, d: nat, c: nat)
    requires d > 0 && n < d * c
    ensures n / d < c
  {
  }

  /** An index below a * b splits into a row below a and a column below b. */
  lemma Unflatten(n: nat, a: nat, b: nat) returns (r: nat, c: nat)
    requires n < a * b
    ensures r < a && c < b && n == r * b + c
  {
    if b == 0 {
      assert false;
    }
    r, c := n / b, n % b;
    DivBound(n, b, a);
  }

  lemma MulRotate(a: nat, b: nat, c: nat)
    ensures c * a * b == a * b * c
  {
  }
}
