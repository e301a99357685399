/** Facts about Euclidean division shared by the countdown and the carousel. */
module Arithmetic {

  /** A positive multiple of a positive number is at least that number. */
  lemma MultipleAtLeast(n: int, b: int)
    requires n >= 1 && b > 0
    ensures n * b >= b
  {
    assert n * b == (n - 1) * b + b;
  }

  /** a == q * b + r with 0 <= r < b determines the quotient and remainder. */
  lemma DivModUnique(a: int, b: int, q: int, r: int)
    requires b > 0 && 0 <= r < b && a == q * b + r
    ensures a / b == q && a % b == r
  {
    var q', r' := a / b, a % b;
    assert q' * b + r' == q * b + r;
    if q' > q {
      assert (q' - q) * b == r - r';
      MultipleAtLeast(q' - q, b);
    } else if q' < q {
      assert (q - q') * b == r' - r;
      MultipleAtLeast(q - q', b);
    }
  }

  /** The remainder of a successor steps up by one, wrapping to zero. */
  lemma ModSuccessor(n: int, b: int)
    requires n >= 0 && b > 0
    ensures (n + 1) % b == if n % b + 1 < b then n % b + 1 else 0
  {
    var q, r := n / b, n % b;
    assert n == q * b + r;
    if r + 1 < b {
      DivModUnique(n + 1, b, q, r + 1);
    } else {
      assert n + 1 == (q + 1) * b;
      DivModUnique(n + 1, b, q + 1, 0);
    }
  }
}
