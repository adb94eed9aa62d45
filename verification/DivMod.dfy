/** Quotients and remainders of the addresses and identities the generator forms. */
module DivMod {

  function Min(a: int, b: int): int {
    if a < b then a else b
  }

  function Max(a: int, b: int): int {
    if a > b then a else b
  }

  /** A product of naturals, which is one. */
  function Times(a: nat, b: nat): nat {
    a * b
  }

  /** A number written as a remainder and a multiple decodes to both. */
  lemma Decode(d: nat, q: int, r: nat)
    requires r < d
    ensures (r + d * q) / d == q && (r + d * q) % d == r
  {
    var n: int := r + d * q;
    var gap := q - n / d;
    assert d * gap == n % d - r;
    Squeeze(d, gap, n % d - r);
  }

  lemma Squeeze(d: int, gap: int, x: int)
    requires d * gap == x && -d < x < d
    ensures gap == 0
  {
  }

  /** Every number is its remainder plus its quotient's multiple. */
  lemma Recompose(n: int, d: nat)
    requires d > 0
    ensures n == n % d + d * (n / d) && 0 <= n % d < d
  {
  }

  /** A place in a grid of q rows of d is below q * d, and every place below that is one. */
  lemma Below(n: nat, d: nat, q: nat)
    requires d > 0
    ensures n < d * q <==> n / d < q
  {
    if n / d < q {
      assert d * (n / d) + d <= d * q by {
        Monotone(d, n / d + 1, q);
      }
    } else {
      Monotone(d, q, n / d);
    }
  }

  /** Place n1 of row n2 is inside a grid of b rows of a. */
  lemma InRange(a: nat, b: nat, n1: nat, n2: nat)
    requires n1 < a && n2 < b
    ensures n1 + a * n2 < a * b
  {
    assert a * n2 + a == a * (n2 + 1) && a * (n2 + 1) <= a * b;
  }

  lemma Monotone(d: nat, a: int, b: int)
    requires a <= b
    ensures d * a <= d * b
  {
  }
}
