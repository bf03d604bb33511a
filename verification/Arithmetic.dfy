/** Division and remainder, where the solver needs help. */
module Arithmetic {

  lemma {:induction false} Multiples(d: int, m: nat)
    ensures d >= 1 ==> d * m >= m
    ensures d <= -1 ==> d * m + m <= 0
  {
  }

  lemma {:induction false} DivisionUnique(n: nat, m: nat, q: int, r: nat)
    requires m > 0 && n == q * m + r && r < m
    ensures n % m == r
  {
    var d := q - n / m;
    assert d * m == q * m - n / m * m;
    Multiples(d, m);
  }

  lemma {:induction false} NextTurn(n: nat, m: nat)
    requires n > 0 && m > 0
    ensures n % m == if (n - 1) % m + 1 == m then 0 else (n - 1) % m + 1
  {
    var q, r := (n - 1) / m, (n - 1) % m;
    assert n - 1 == q * m + r;
    if r + 1 == m {
      assert (q + 1) * m == q * m + m;
      DivisionUnique(n, m, q + 1, 0);
    } else {
      DivisionUnique(n, m, q, r + 1);
    }
  }

  lemma {:induction false} MultipleIs(k: nat, a: nat)
    requires a > 0
    ensures k * a % a == 0
  {
    DivisionUnique(k * a, a, k, 0);
  }

  lemma {:induction false} SumOnGrid(x: nat, y: nat, a: nat)
    requires a > 0 && x % a == 0 && y % a == 0
    ensures (x + y) % a == 0
  {
    assert x == x / a * a && y == y / a * a;
    assert x + y == (x / a + y / a) * a;
    MultipleIs(x / a + y / a, a);
  }

  // RT_ALIGN: the least multiple of a that is not below n.
  function AlignUp(n: nat, a: nat): nat
    requires a > 0
  {
    (n + a - 1) / a * a
  }

  lemma {:induction false} AlignedUp(n: nat, a: nat)
    requires a > 0
    ensures AlignUp(n, a) % a == 0 && n <= AlignUp(n, a) < n + a
    ensures n % a == 0 ==> AlignUp(n, a) == n
  {
    var m := n + a - 1;
    assert m == m / a * a + m % a;
    MultipleIs(m / a, a);
    if n % a == 0 {
      assert n == n / a * a;
      var d := m / a - n / a;
      assert d * a == m / a * a - n / a * a;
      Multiples(d, a);
    }
  }
}
