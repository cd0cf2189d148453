/** Remainders, as cyclic counters use them. */
module Modular {
  lemma ModSum(next: nat, i: nat, n: nat)
    requires i < n
    ensures (next + i) % n == if next % n + i < n then next % n + i else next % n + i - n
  {
    var q, r := next / n, next % n;
    assert next == q * n + r;
    if r + i < n {
      DivUnique(next + i, q, r + i, n);
    } else {
      assert next + i == (q + 1) * n + (r + i - n);
      DivUnique(next + i, q + 1, r + i - n, n);
    }
  }

  lemma Distribute(a: nat, n: nat)
    ensures (a + 1) * n == a * n + n
  {
  }

  lemma {:induction false} NextMultiple(a: nat, b: nat, n: nat)
    requires a + 1 <= b
    ensures a * n + n <= b * n
  {
    Distribute(b - 1, n);
    if a + 1 < b {
      NextMultiple(a, b - 1, n);
    }
  }

  lemma DivUnique(x: nat, q: nat, r: nat, n: nat)
    requires n > 0 && r < n && x == q * n + r
    ensures x / n == q && x % n == r
  {
    var q' := x / n;
    assert x == q' * n + x % n;
    if q + 1 <= q' {
      NextMultiple(q, q', n);
    }
    if q' + 1 <= q {
      NextMultiple(q', q, n);
    }
  }

  lemma ModSmall(x: nat, n: nat)
    requires x < n
    ensures x % n == x
  {
    DivUnique(x, 0, x, n);
  }
}
