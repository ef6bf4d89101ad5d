/** Bitwise "and" on unbounded naturals, and what it means for powers of two. */
module Bits {
  function And(a: nat, b: nat): nat {
    if a == 0 || b == 0 then 0 else (if a % 2 == 1 && b % 2 == 1 then 1 else 0) + 2 * And(a / 2, b / 2)
  }

  function Pow2(k: nat): (r: nat)
    ensures r >= 1
  {
    if k == 0 then 1 else 2 * Pow2(k - 1)
  }

  ghost predicate PowerOfTwo(n: nat) {
    exists k: nat :: n == Pow2(k)
  }

  /** The capacity test of the queue's constructor accepts exactly the powers of two. */
  lemma {:induction false} CapacityTest(n: nat)
    ensures (n != 0 && And(n, n - 1) == 0) <==> PowerOfTwo(n)
  {
    if n == 1 {
      assert Pow2(0) == 1;
    } else if n >= 2 {
      HalvesPowerOfTwo(n);
      if n % 2 == 0 {
        CapacityTest(n / 2);
        assert (n - 1) / 2 == n / 2 - 1 && (n - 1) % 2 == 1;
      } else {
        AndSelf(n / 2);
        assert (n - 1) / 2 == n / 2 && n / 2 >= 1;
      }
    }
  }

  lemma HalvesPowerOfTwo(n: nat)
    requires n >= 2
    ensures PowerOfTwo(n) <==> n % 2 == 0 && PowerOfTwo(n / 2)
  {
    if PowerOfTwo(n) {
      var k: nat :| n == Pow2(k);
      assert n == 2 * Pow2(k - 1) && n / 2 == Pow2(k - 1);
    }
    if n % 2 == 0 && PowerOfTwo(n / 2) {
      var k: nat :| n / 2 == Pow2(k);
      assert n == Pow2(k + 1);
    }
  }

  lemma {:induction false} AndSelf(n: nat)
    ensures And(n, n) == n
  {
    if n != 0 { AndSelf(n / 2); }
  }

  /** Masking with 2^k - 1 is the remainder modulo 2^k. */
  lemma {:induction false} MaskIsModulo(p: nat, k: nat)
    ensures And(p, Pow2(k) - 1) == p % Pow2(k)
  {
    if k > 0 {
      MaskIsModulo(p / 2, k - 1);
      HalveModulo(p, Pow2(k - 1));
      AndOdd(p, Pow2(k - 1));
    }
  }

  lemma AndOdd(p: nat, h: nat)
    requires h > 0
    ensures And(p, 2 * h - 1) == p % 2 + 2 * And(p / 2, h - 1)
  {
    assert (2 * h - 1) / 2 == h - 1 && (2 * h - 1) % 2 == 1;
  }

  lemma HalveModulo(p: nat, h: nat)
    requires h > 0
    ensures p % (2 * h) == p % 2 + 2 * ((p / 2) % h)
  {
    var m := p / 2;
    var q, r := m / h, m % h;
    assert p == 2 * h * q + (p % 2 + 2 * r) by { assert m == h * q + r; }
    assert 0 <= p % 2 + 2 * r < 2 * h;
    Remainder(p, 2 * h, q, p % 2 + 2 * r);
  }

  lemma Remainder(x: int, n: nat, q: int, r: int)
    requires n > 0 && x == n * q + r && 0 <= r < n
    ensures x % n == r
  {
    var d := x / n - q;
    assert n * d == r - x % n;
    Multiples(n, d);
  }

  lemma Multiples(n: int, d: int)
    requires n > 0
    ensures d >= 1 ==> n * d >= n
    ensures d <= -1 ==> n * d <= -n
  {
  }

  /** Reducing modulo a larger power of two first does not change a remainder. */
  lemma ModuloOfModulo(p: nat, k: nat, j: nat)
    ensures Pow2(k + j) == Pow2(k) * Pow2(j)
    ensures (p % Pow2(k + j)) % Pow2(k) == p % Pow2(k)
  {
    Pow2Adds(k, j);
    NestedModulo(p, Pow2(k), Pow2(j));
  }

  lemma NestedModulo(p: nat, n: nat, m: nat)
    requires n > 0 && m > 0 && n * m > 0
    ensures (p % (n * m)) % n == p % n
  {
    var q, r := p / (n * m), p % (n * m);
    var q', r' := r / n, r % n;
    calc {
      p;
      (n * m) * q + r;
      n * (m * q) + r;
      n * (m * q) + (n * q' + r');
      n * (m * q + q') + r';
    }
    Remainder(p, n, m * q + q', r');
  }

  lemma {:induction false} Pow2Adds(k: nat, j: nat)
    ensures Pow2(k + j) == Pow2(k) * Pow2(j)
  {
    if k > 0 { Pow2Adds(k - 1, j); }
  }
}
