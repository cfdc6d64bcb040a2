/** Division and remainder by a variable, pinned down by the defining equation, and repeated sums. */
module Arith {

  /** Division with remainder is unique. */
  lemma DivModUnique(x: int, c: int, q: int, r: int)
    requires 0 <= r < c && x == q * c + r
    ensures x / c == q && x % c == r
  {
    var q', r' := x / c, x % c;
    assert x == q' * c + r';
    assert (q' - q) * c == r - r' && (q - q') * c == r' - r;
    if q' > q {
      Scaled(q' - q, c);
    } else if q' < q {
      Scaled(q - q', c);
    }
  }

  lemma Scaled(k: int, c: int)
    requires k >= 1 && c >= 0
    ensures k * c >= c
  {
    assert k * c == c + (k - 1) * c;
  }

  /** x added up n times. */
  function Repeated(n: nat, x: real): real {
    if n == 0 then 0.0 else Repeated(n - 1, x) + x
  }

  lemma OneMore(n: nat, x: real)
    ensures (n + 1) as real * x == n as real * x + x
  {
  }

  lemma {:induction false} RepeatedIsProduct(n: nat, x: real)
    ensures Repeated(n, x) == n as real * x
  {
    if n == 0 {
    } else {
      RepeatedIsProduct(n - 1, x);
      OneMore(n - 1, x);
    }
  }
}
