/** Arithmetic modulo a ring's capacity. */
module ModLemmas {

  lemma {:induction false} MulAtLeast(m: nat, k: int)
    requires 0 < k
    ensures m <= m * k
  {
    if k > 1 {
      MulAtLeast(m, k - 1);
      assert m * k == m * (k - 1) + m;
    }
  }

  lemma MulSmall(m: nat, k: int)
    requires 0 - m < m * k < m
    ensures k == 0
  {
    if k > 0 {
      MulAtLeast(m, k);
    } else if k < 0 {
      MulAtLeast(m, -k);
    }
  }

  /** Quotient and remainder are unique. */
  lemma ModUnique(a: nat, m: nat, q: int, r: nat)
    requires r < m && a == m * q + r
    ensures a % m == r
  {
    var q', r' := a / m, a % m;
    assert a == m * q' + r';
    assert m * (q - q') == m * q - m * q';
    MulSmall(m, q - q');
  }

  lemma ModSame(a: nat, m: nat)
    requires a < m
    ensures a % m == a
  {
    ModUnique(a, m, 0, a);
  }

  lemma ModNext(a: nat, m: nat)
    requires 0 < m
    ensures (a + 1) % m == if a % m + 1 == m then 0 else a % m + 1
  {
    var q, r := a / m, a % m;
    assert a == m * q + r;
    if r + 1 == m {
      assert m * (q + 1) == m * q + m;
      ModUnique(a + 1, m, q + 1, 0);
    } else {
      ModUnique(a + 1, m, q, r + 1);
    }
  }

  lemma ModNextIndex(i: nat, m: nat)
    requires i < m
    ensures (i + 1) % m == if i + 1 == m then 0 else i + 1
  {
    ModSame(i, m);
    ModNext(i, m);
  }

  lemma ModLap(a: nat, m: nat)
    requires 0 < m
    ensures (a + m) % m == a % m
  {
    var q, r := a / m, a % m;
    assert a == m * q + r;
    assert m * (q + 1) == m * q + m;
    ModUnique(a + m, m, q + 1, r);
  }

  /** Tickets less than a lap apart have equal indices only if they are equal. */
  lemma ModInjective(a: nat, b: nat, m: nat)
    requires 0 < m && a <= b < a + m && a % m == b % m
    ensures a == b
  {
    var qa, qb := a / m, b / m;
    assert a == m * qa + a % m && b == m * qb + b % m;
    assert m * (qb - qa) == m * qb - m * qa;
    MulSmall(m, qb - qa);
  }

  /** One slot short of a lap, the next write index meets the read index. */
  lemma ModFull(a: nat, b: nat, m: nat)
    requires 0 < m && a + 1 == b + m
    ensures (a % m + 1) % m == b % m % m
  {
    ModNext(a, m);
    ModNextIndex(a % m, m);
    ModLap(b, m);
    ModSame(b % m, m);
  }

  /** Two tickets have the same index exactly when a whole number of laps lies between them. */
  lemma ModLaps(a: nat, b: nat, m: nat)
    requires 0 < m && a <= b
    ensures a % m == b % m <==> (b - a) % m == 0
  {
    var qa, qb := a / m, b / m;
    assert a == m * qa + a % m && b == m * qb + b % m;
    if a % m == b % m {
      assert m * (qb - qa) == m * qb - m * qa;
      ModUnique(b - a, m, qb - qa, 0);
    }
    if (b - a) % m == 0 {
      var q := (b - a) / m;
      assert b - a == m * q;
      assert m * (qa + q) == m * qa + m * q;
      ModUnique(b, m, qa + q, a % m);
    }
  }
}
