/** Powers of natural numbers and the few division facts the other modules need. */
module Powers {

  function Pow(b: nat, e: nat): nat {
    if e == 0 then 1 else b * Pow(b, e - 1)
  }

  lemma PowPositive(b: nat, e: nat)
    requires b > 0
    ensures Pow(b, e) > 0
  {
    if e > 0 {
      PowPositive(b, e - 1);
      MulPositive(b, Pow(b, e - 1));
    }
  }

  lemma MulPositive(x: nat, y: nat)
    requires x > 0 && y > 0
    ensures x * y > 0
  {
  }

  lemma MulMono(x: nat, y: nat, u: nat, v: nat)
    requires x <= u && y <= v
    ensures x * y <= u * v
  {
    assert x * y <= u * y;
    assert u * y <= u * v;
  }

  lemma PowMonoBase(a: nat, b: nat, e: nat)
    requires a <= b
    ensures Pow(a, e) <= Pow(b, e)
  {
    if e > 0 {
      PowMonoBase(a, b, e - 1);
      MulMono(a, Pow(a, e - 1), b, Pow(b, e - 1));
    }
  }

  lemma PowMonoExp(b: nat, d: nat, e: nat)
    requires b > 0 && d <= e
    ensures Pow(b, d) <= Pow(b, e)
    decreases e
  {
    if d < e {
      PowMonoExp(b, d, e - 1);
      PowPositive(b, e - 1);
      MulMono(1, Pow(b, e - 1), b, Pow(b, e - 1));
    }
  }

  lemma {:induction false} PowAdd(b: nat, d: nat, e: nat)
    ensures Pow(b, d + e) == Pow(b, d) * Pow(b, e)
  {
    if d == 0 {
      assert Pow(b, 0) * Pow(b, e) == Pow(b, e);
    } else {
      PowAdd(b, d - 1, e);
      MulAssoc(b, Pow(b, d - 1), Pow(b, e));
    }
  }

  lemma MulNonNegative(x: int, y: int)
    requires x >= 0 && y >= 0
    ensures x * y >= 0
  {
  }

  lemma Distribute(x: int, y: int, d: int)
    ensures (x + y) * d == x * d + y * d
  {
  }

  lemma MulAssoc(x: int, y: int, z: int)
    ensures x * y * z == x * (y * z)
  {
  }

  /** The quotient is pinned by the multiples around the dividend. */
  lemma DivUnique(n: int, d: int, q: int)
    requires d > 0 && q * d <= n < q * d + d
    ensures n / d == q
  {
    var r := n - q * d;
    assert n == (n / d) * d + n % d;
    if n / d < q {
      MulLess(n / d, q, d);
    } else if n / d > q {
      MulLess(q, n / d, d);
    }
  }

  lemma MulLess(a: int, b: int, d: int)
    requires a < b && d > 0
    ensures a * d + d <= b * d
  {
    var k := b - a - 1;
    Distribute(a + 1, k, d);
    Distribute(a, 1, d);
    MulNonNegative(k, d);
  }

  lemma {:induction false} PowMod(base: nat, e: nat, m: nat)
    requires m > 0
    ensures (Pow(base, e) % m * base) % m == Pow(base, e + 1) % m
  {
    ModMul(Pow(base, e), base, m);
  }

  lemma ModMul(x: nat, y: nat, m: nat)
    requires m > 0
    ensures (x % m * y) % m == (y * x) % m
  {
    var q := x / m;
    assert x == q * m + x % m;
    assert y * x == (y * q) * m + x % m * y by {
      assert y * (q * m) == (y * q) * m;
    }
    AddMultiple(x % m * y, y * q, m);
  }

  lemma AddMultiple(a: nat, k: nat, m: nat)
    requires m > 0
    ensures (a + k * m) % m == a % m
    decreases k
  {
    if k > 0 {
      AddMultiple(a, k - 1, m);
      assert a + k * m == a + (k - 1) * m + m;
      AddOne(a + (k - 1) * m, m);
    }
  }

  lemma AddOne(a: nat, m: nat)
    requires m > 0
    ensures (a + m) % m == a % m
  {
    var q := a / m;
    assert a == q * m + a % m;
    assert a + m == (q + 1) * m + a % m;
    DivUnique(a + m, m, q + 1);
  }
}
