/** Multiplication and division of numbers, in steps the verifier follows. */
module Arithmetic {
  lemma Associates(a: nat, b: nat, c: nat)
    ensures a * (b * c) == a * b * c
  {
  }

  lemma Distributes(a: nat, b: nat, c: nat)
    ensures (a + b) * c == a * c + b * c
  {
  }

  lemma Grows(a: nat, b: nat, c: nat)
    requires a <= b
    ensures a * c <= b * c
  {
  }

  lemma DivideIs(x: nat, d: nat, q: nat, r: nat)
    requires d > 0 && x == q * d + r && r < d
    ensures x / d == q && x % d == r
  {
    var p := x / d;
    DivideParts(x, d);
    Distributes(p, 1, d);
    Distributes(q, 1, d);
    if p < q {
      Grows(p + 1, q, d);
      assert false;
    } else if q < p {
      Grows(q + 1, p, d);
      assert false;
    }
  }

  lemma DivideParts(x: nat, d: nat)
    requires d > 0
    ensures x == x / d * d + x % d && x % d < d
  {
  }

  lemma BelowDivisor(x: nat, d: nat)
    requires x < d
    ensures x / d == 0 && x % d == x
  {
  }

  /** Quotient and remainder as natural numbers. */
  function Quotient(x: nat, d: nat): (q: nat)
    requires d > 0
  {
    x / d
  }

  function Remainder(x: nat, d: nat): (r: nat)
    requires d > 0
  {
    x % d
  }
}
