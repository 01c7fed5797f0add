/** Small facts about multiplication and Euclidean division on naturals.
    Dafny's `/` and `%` are Euclidean, which for a positive divisor coincide
    with Python's floor division `//` and `%`. */
module Arith {

  lemma MulLe(a: int, b: int, c: nat)
    requires a <= b
    ensures a * c <= b * c
  {
  }

  lemma MulLtCancel(a: int, b: int, c: nat)
    requires a * c < b * c
    ensures a < b
  {
    if a >= b {
      MulLe(b, a, c);
    }
  }

  /** The quotient q = a / d is the unique value with q*d <= a < (q+1)*d. */
  lemma DivBounds(a: int, d: int)
    requires d > 0
    ensures (a / d) * d <= a < (a / d) * d + d
  {
  }

  /** If q*d <= a < q*d + d then a / d == q. */
  lemma DivUnique(a: int, d: int, q: int)
    requires d > 0
    requires q * d <= a < q * d + d
    ensures a / d == q
  {
    DivBounds(a, d);
    var p := a / d;
    if p < q {
      MulLe(p + 1, q, d);
    } else if p > q {
      MulLe(q + 1, p, d);
    }
  }

  /** j < ceil(a / d) exactly when j * d < a. */
  lemma BelowCeil(a: nat, d: int, j: nat)
    requires d > 0
    ensures j < (a + d - 1) / d <==> j * d < a
  {
    var q := (a + d - 1) / d;
    DivBounds(a + d - 1, d);
    if j < q {
      MulLe(j + 1, q, d);
    } else {
      MulLe(q, j, d);
    }
  }

  /** Floor division is monotone in the dividend. */
  lemma DivMono(a: int, b: int, d: int)
    requires d > 0
    requires a <= b
    ensures a / d <= b / d
  {
    DivBounds(a, d);
    DivBounds(b, d);
    if a / d > b / d {
      MulLe(b / d + 1, a / d, d);
    }
  }

  /** (m * d + r) / d == m for a remainder 0 <= r < d. */
  lemma DivOfMulAdd(m: int, d: int, r: int)
    requires d > 0
    requires 0 <= r < d
    ensures (m * d + r) / d == m
  {
    DivUnique(m * d + r, d, m);
  }

  /** Adding to a number or to its remainder leaves the same remainder. */
  lemma ModAdd(a: int, b: int, d: int)
    requires d > 0
    ensures (a + b) % d == (a % d + b) % d
  {
    var x := a % d + b;
    DivBounds(a, d);
    DivBounds(x, d);
    assert a + b == (a / d + x / d) * d + x % d;
    DivUnique(a + b, d, a / d + x / d);
  }
}
