/** Facts about quotients and remainders. */
module Numbers {

  lemma MulMonotone(m: nat, a: nat, b: nat)
    requires a <= b
    ensures m * a <= m * b
  {
  }

  lemma MulNext(m: nat, a: nat)
    ensures m * (a + 1) == m * a + m
  {
  }

  /** A quotient and a remainder are the only ones. */
  lemma DivMod(x: nat, m: nat, q: nat, r: nat)
    requires m > 0 && x == m * q + r && r < m
    ensures x / m == q && x % m == r
  {
    var a := x / m;
    MulNext(m, q);
    MulNext(m, a);
    if a > q {
      MulMonotone(m, q + 1, a);
    } else if a < q {
      MulMonotone(m, a + 1, q);
    }
  }

  lemma SmallMod(x: nat, m: nat)
    requires x < m
    ensures x % m == x
  {
  }

  lemma Distribute(m: nat, p: nat, k: nat)
    ensures m * (p + k) == m * p + m * k
  {
  }

  lemma ShiftMod(a: nat, m: nat, k: nat)
    requires m > 0
    ensures (a + m * k) % m == a % m
  {
    Distribute(m, a / m, k);
    DivMod(a + m * k, m, a / m + k, a % m);
  }

  /** Equal remainders of two sums with the same part. */
  lemma SameMod(a: nat, b: nat, d: nat, m: nat)
    requires m > 0 && (a + d) % m == (b + d) % m
    ensures a % m == b % m
  {
    var p, q := (a + d) / m, (b + d) / m;
    if p <= q {
      Apart(a, b, d, m, p, q, (a + d) % m);
    } else {
      Apart(b, a, d, m, q, p, (a + d) % m);
    }
  }

  lemma Apart(a: nat, b: nat, d: nat, m: nat, p: nat, q: nat, r: nat)
    requires m > 0 && p <= q && a + d == m * p + r && b + d == m * q + r
    ensures a % m == b % m
  {
    Distribute(m, p, q - p);
    ShiftMod(a, m, q - p);
  }
}
