/** Facts about quotient and remainder the solver does not find on its own. */
module Division {

  lemma DivModUnique(x: nat, q: nat, r: nat, m: nat)
    requires m > 0 && x == m * q + r && r < m
    ensures x / m == q && x % m == r
  {
    var d := x / m;
    assert x == m * d + x % m;
    assert d < q ==> m * (d + 1) <= m * q;
    assert d > q ==> m * (q + 1) <= m * d;
  }

  lemma ModOfSum(a: nat, j: nat, m: nat)
    requires m > 0 && a % m + j < m
    ensures (a + j) % m == a % m + j
  {
    assert a == m * (a / m) + a % m;
    DivModUnique(a + j, a / m, a % m + j, m);
  }

  lemma ModAtEnd(a: nat, m: nat)
    requires m > 0
    ensures (a + (m - a % m)) % m == 0
  {
    assert a == m * (a / m) + a % m;
    assert m * (a / m + 1) == m * (a / m) + m;
    DivModUnique(a + (m - a % m), a / m + 1, 0, m);
  }

  function Quotient(x: nat, m: nat): nat
    requires m > 0
  {
    x / m
  }

  function Product(q: nat, m: nat): nat { m * q }

  lemma ProductDivides(q: nat, m: nat)
    requires m > 0
    ensures Product(q, m) % m == 0 && Quotient(Product(q, m), m) == q
  {
    DivModUnique(Product(q, m), q, 0, m);
  }

  lemma ProductOfQuotient(x: nat, m: nat)
    requires m > 0 && x % m == 0
    ensures Product(Quotient(x, m), m) == x
  {
  }
}
