/** Smaller and larger numbers, products and quotients. */
module Arithmetic {
  function Least(a: nat, b: nat): nat { if a <= b then a else b }

  function Most(a: nat, b: nat): nat { if a >= b then a else b }

  lemma MulLe(a: nat, b: nat, c: nat)
    requires a <= b
    ensures a * c <= b * c
  {
  }

  lemma DivParts(a: nat, b: nat)
    requires b > 0
    ensures a == a / b * b + a % b && a % b < b
  {
  }

  lemma DivIs(a: nat, b: nat, q: nat)
    requires b > 0 && q * b <= a < q * b + b
    ensures a / b == q
  {
    DivParts(a, b);
    var d := a / b;
    if d < q { MulLe(d + 1, q, b); }
    if d > q { MulLe(q + 1, d, b); }
  }
}
