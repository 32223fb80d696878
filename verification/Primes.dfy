/** Primality certificates: Lucas' test, applied down the tree of prime factors. */
module Primes {
  import opened Arithmetic
  import opened Sequences

  predicate IsPrime(p: nat) {
    p >= 2 && forall d :: 2 <= d < p ==> p % d != 0
  }

  // Coprime numbers, by Bezout coefficients.

  function Comb(a: int, b: int, x: int, y: int): int {
    a * x + b * y
  }

  ghost predicate Coprime(a: int, b: int) {
    exists x, y :: Comb(a, b, x, y) == 1
  }

  lemma MultipleSum(a: int, b: int, x: int, y: int, d: nat)
    requires d > 0 && a % d == 0 && b % d == 0
    ensures Comb(a, b, x, y) % d == 0
  {
    var i, j := a / d, b / d;
    assert a == i * d && b == j * d;
    assert a * x == i * x * d;
    assert b * y == j * y * d;
    assert Comb(a, b, x, y) == (i * x + j * y) * d + 0;
    DivUnique(Comb(a, b, x, y), d, i * x + j * y, 0);
  }

  /** A common divisor that is a combination of both numbers. */
  lemma {:induction false} Bezout(a: nat, b: nat) returns (g: nat, x: int, y: int)
    requires a > 0
    ensures g > 0 && a % g == 0 && b % g == 0 && Comb(a, b, x, y) == g
    decreases b
  {
    if b == 0 {
      g, x, y := a, 1, 0;
    } else {
      var h, u, v := Bezout(b, a % b);
      g, x, y := h, v, u - a / b * v;
      assert a == a / b * b + a % b;
      MultipleSum(b, a % b, a / b, 1, g);
      assert Comb(a, b, x, y) == g by {
        assert (a % b) * v == a * v - a / b * b * v;
        assert b * (u - a / b * v) == b * u - b * (a / b * v);
        assert b * (a / b * v) == a / b * b * v;
      }
    }
  }

  lemma PrimeCoprime(p: nat, h: nat)
    requires IsPrime(p) && h % p != 0
    ensures Coprime(h, p)
  {
    var g, x, y := Bezout(p, h);
    assert p == p / g * g;
    MulMonotone(1, p / g, g);
    assert g == 1 || g == p;
    assert Comb(h, p, y, x) == g;
  }

  /** A number that is coprime to both factors is coprime to the product. */
  lemma CoprimeProduct(c: int, a: int, b: int)
    requires Coprime(c, a) && Coprime(c, b)
    ensures Coprime(c, a * b)
  {
    var x, y :| Comb(c, a, x, y) == 1;
    var u, v :| Comb(c, b, u, v) == 1;
    var w := x * (c * u + b * v) + a * y * u;
    calc {
      1;
      (c * x + a * y) * (c * u + b * v);
      c * x * (c * u + b * v) + a * y * (c * u) + a * y * (b * v);
      c * (x * (c * u + b * v)) + c * (a * y * u) + a * b * (y * v);
      c * w + a * b * (y * v);
    }
    assert Comb(c, a * b, w, y * v) == 1;
  }

  function Product(s: seq<nat>): nat {
    if s == [] then 1 else s[0] * Product(s[1..])
  }

  lemma {:induction false} CoprimeAll(c: int, s: seq<nat>)
    requires forall q :: q in s ==> Coprime(c, q)
    ensures Coprime(c, Product(s))
  {
    if s == [] {
      assert Comb(c, 1, 0, 1) == 1;
    } else {
      assert s[0] in s;
      CoprimeAll(c, s[1..]);
      CoprimeProduct(c, s[0], Product(s[1..]));
    }
  }

  // Powers modulo n.

  function MulMod(a: nat, b: nat, n: nat): (r: nat)
    requires n > 0
    ensures r < n
  {
    MulNonNegative(a, b);
    a * b % n
  }

  lemma ModShift(r: int, q: int, n: nat)
    requires n > 0
    ensures (q * n + r) % n == r % n
  {
    assert r == r / n * n + r % n;
    assert q * n + r == (q + r / n) * n + r % n;
    DivUnique(q * n + r, n, q + r / n, r % n);
  }

  /** Reducing a factor first makes no difference. */
  lemma ModMul(a: int, b: int, n: nat)
    requires n > 0
    ensures a * b % n == a % n * b % n
  {
    var q, r := a / n, a % n;
    assert a == q * n + r;
    assert a * b == q * b * n + r * b;
    ModShift(r * b, q * b, n);
  }

  lemma MulModAssociative(a: nat, b: nat, c: nat, n: nat)
    requires n > 0
    ensures MulMod(a, MulMod(b, c, n), n) == MulMod(MulMod(a, b, n), c, n)
  {
    ModMul(a * b, c, n);
    ModMul(b * c, a, n);
    assert b * c % n * a == a * (b * c % n);
    assert b * c * a == a * b * c;
  }

  lemma MulModOne(a: nat, n: nat)
    requires a < n
    ensures MulMod(1 % n, a, n) == a && MulMod(a, 1 % n, n) == a
  {
    if n == 1 {
    } else {
      DivUnique(1, n, 0, 1);
      DivUnique(a, n, 0, a);
    }
  }

  function PowMod(g: nat, e: nat, n: nat): (r: nat)
    requires n > 0
    ensures r < n
  {
    if e == 0 then 1 % n else MulMod(g, PowMod(g, e - 1, n), n)
  }

  lemma {:induction false} PowAdd(g: nat, a: nat, b: nat, n: nat)
    requires n > 0
    ensures PowMod(g, a + b, n) == MulMod(PowMod(g, a, n), PowMod(g, b, n), n)
  {
    hide MulMod;
    if a == 0 {
      MulModOne(PowMod(g, b, n), n);
    } else {
      PowAdd(g, a - 1, b, n);
      MulModAssociative(g, PowMod(g, a - 1, n), PowMod(g, b, n), n);
    }
  }

  lemma {:induction false} PowTimes(g: nat, a: nat, b: nat, n: nat)
    requires n > 0 && PowMod(g, a, n) == 1 % n
    ensures a * b >= 0 && PowMod(g, a * b, n) == 1 % n
    decreases b
  {
    hide MulMod;
    MulNonNegative(a, b);
    if b == 0 {
      assert a * b == 0;
    } else {
      PowTimes(g, a, b - 1, n);
      assert a * b == a + a * (b - 1);
      PowAdd(g, a, a * (b - 1), n);
      MulModOne(1 % n, n);
    }
  }

  /** Powers modulo a divisor are remainders of the powers modulo the number. */
  lemma {:induction false} PowModDivisor(g: nat, e: nat, n: nat, d: nat)
    requires n > 0 && d > 0 && n % d == 0
    ensures PowMod(g, e, d) == PowMod(g, e, n) % d
  {
    if e == 0 {
      ModOfMod(1, n, d);
    } else {
      var r := PowMod(g, e - 1, n);
      PowModDivisor(g, e - 1, n, d);
      MulNonNegative(g, r);
      ModOfMod(g * r, n, d);
      ModMul(r, g, d);
      assert g * r == r * g && g * (r % d) == r % d * g;
    }
  }

  lemma ModOfMod(x: nat, n: nat, d: nat)
    requires n > 0 && d > 0 && n % d == 0
    ensures x % n % d == x % d
  {
    assert n == n / d * d;
    assert x == x / n * n + x % n;
    assert x / n * n == x / n * (n / d) * d;
    ModShift(x % n, x / n * (n / d), d);
  }

  // Pocklington's theorem.

  /** A least positive exponent with power 1. */
  lemma Order(g: nat, e: nat, n: nat) returns (k: nat)
    requires n > 1 && e > 0 && PowMod(g, e, n) == 1
    ensures IsOrder(g, k, n) && k <= e
  {
    k := 1;
    while PowMod(g, k, n) != 1
      invariant 0 < k <= e
      invariant forall j :: 0 < j < k ==> PowMod(g, j, n) != 1
      decreases e - k
    {
      k := k + 1;
    }
  }

  predicate IsOrder(g: nat, k: nat, n: nat) {
    && n > 1 && k > 0 && PowMod(g, k, n) == 1
    && forall j :: 0 < j < k ==> PowMod(g, j, n) != 1
  }

  /** The order of g divides every exponent at which the power is 1. */
  lemma OrderDivides(g: nat, k: nat, e: nat, n: nat)
    requires IsOrder(g, k, n) && PowMod(g, e, n) == 1
    ensures e % k == 0
  {
    hide MulMod, PowMod;
    var q, r := e / k, e % k;
    assert e == k * q + r;
    PowTimes(g, k, q, n);
    PowAdd(g, k * q, r, n);
    MulModOne(PowMod(g, r, n), n);
  }

  /** No witness prime divides the cofactor of the order. */
  lemma CofactorCoprime(g: nat, n: nat, m: nat, k: nat, c: nat, q: nat)
    requires n > 1 && PowMod(g, k, n) == 1 && m == c * k
    requires IsPrime(q) && PowMod(g, m / q, n) != 1
    ensures Coprime(c, q)
  {
    hide PowMod;
    if c % q == 0 {
      var b := c / q;
      assert c == b * q;
      assert m == k * b * q + 0;
      DivUnique(m, q, k * b, 0);
      PowTimes(g, k, b, n);
    }
    PrimeCoprime(q, c);
  }

  /** A divisor of c * k that is coprime to c is at most k. */
  lemma DividesOther(f: nat, c: nat, k: nat)
    requires f > 0 && c * k % f == 0 && Coprime(c, f) && k > 0
    ensures f <= k
  {
    var x, y :| Comb(c, f, x, y) == 1;
    var t := c * k / f;
    assert c * k == t * f;
    var z := t * x + k * y;
    assert k == z * f by {
      assert k * (c * x + f * y) == c * k * x + k * f * y;
      assert c * k * x == t * x * f;
      assert k * f * y == k * y * f;
    }
    if z >= 1 {
      MulMonotone(1, z, f);
    } else {
      MulMonotone(z, 0, f);
    }
  }

  function Powers(g: nat, e: nat, n: nat): (s: seq<nat>)
    requires n > 0
    ensures |s| == e && forall i :: 0 <= i < e ==> s[i] == PowMod(g, i, n)
  {
    seq(e, i requires 0 <= i => PowMod(g, i, n))
  }

  lemma OrderFacts(g: nat, n: nat, k: nat, j: nat)
    requires IsOrder(g, k, n) && 0 < j < k
    ensures n > 1 && PowMod(g, k, n) == 1 == 1 % n && PowMod(g, j, n) != 1
  {
    hide PowMod;
  }

  /** Powers below the order differ, because equal powers could be cancelled. */
  lemma PowersDiffer(g: nat, n: nat, k: nat, i: nat, j: nat)
    requires IsOrder(g, k, n) && i < j < k
    ensures PowMod(g, i, n) != PowMod(g, j, n)
  {
    OrderFacts(g, n, k, j - i);
    hide *;
    if PowMod(g, i, n) == PowMod(g, j, n) {
      PowAdd(g, i, k - i, n);
      PowAdd(g, j, k - i, n);
      PowAdd(g, k, j - i, n);
      MulModOne(PowMod(g, j - i, n), n);
    }
  }

  lemma PowNonZero(g: nat, n: nat, k: nat, i: nat)
    requires n > 1 && PowMod(g, k, n) == 1 && i <= k
    ensures PowMod(g, i, n) != 0
  {
    hide PowMod;
    PowAdd(g, i, k - i, n);
    assert MulMod(0, PowMod(g, k - i, n), n) == 0;
  }

  /** There are too few remainders for an order of n or more. */
  lemma OrderBelow(g: nat, k: nat, n: nat)
    requires IsOrder(g, k, n)
    ensures k < n
  {
    hide PowMod, Below;
    var s := Powers(g, k, n);
    forall i, j | 0 <= i < j < |s| ensures s[i] != s[j] {
      PowersDiffer(g, n, k, i, j);
    }
    DistinctCount(s);
    forall i | 0 <= i < |s| ensures s[i] != 0 {
      PowNonZero(g, n, k, i);
    }
    assert 0 in Below(n);
    SubsetSize((set x | x in s), Below(n) - {0});
  }

  /** A certificate: the power of a at n - 1 is 1, and for every q in qs the power at (n - 1) / q, less one, has
      the inverse us[q] modulo n; the product of qs divides n - 1 and exceeds the square root of n. */
  predicate Certificate(a: nat, n: nat, qs: seq<nat>, us: seq<nat>) {
    && n > 1 && PowMod(a, n - 1, n) == 1
    && Product(qs) > 0 && (n - 1) % Product(qs) == 0 && (Product(qs) + 1) * (Product(qs) + 1) > n
    && |us| == |qs|
    && forall i :: 0 <= i < |qs| ==> Witness(a, n, qs[i], us[i])
  }

  predicate Witness(a: nat, n: nat, q: nat, u: nat)
    requires n > 0
  {
    IsPrime(q) && Unlike(PowMod(a, (n - 1) / q, n), u, n)
  }

  lemma WitnessOf(a: nat, n: nat, q: nat, e: nat, x: nat, u: nat)
    requires n > 0 && IsPrime(q) && (n - 1) / q == e && PowMod(a, e, n) == x && Unlike(x, u, n)
    ensures Witness(a, n, q, u)
  {
    hide PowMod, Unlike;
  }

  /** x differs from 1 modulo every divisor of n, because x - 1 is invertible. */
  predicate Unlike(x: nat, u: nat, n: nat)
    requires n > 0
  {
    (x - 1) * u % n == 1
  }

  lemma UnlikeDivisor(x: nat, u: nat, n: nat, d: nat)
    requires n > 0 && Unlike(x, u, n) && d > 1 && n % d == 0
    ensures x % d != 1
  {
    if x % d == 1 {
      var y := (x - 1) * u;
      var w := y / n;
      assert y == w * n + 1;
      assert n == n / d * d;
      assert y == w * (n / d) * d + 1;
      DivUnique(y, d, w * (n / d), 1);
      assert x == x / d * d + 1;
      assert y == x / d * u * d + 0;
      DivUnique(y, d, x / d * u, 0);
    }
  }

  lemma OrderModDivisor(a: nat, n: nat, d: nat) returns (k: nat, c: nat)
    requires n > 1 && PowMod(a, n - 1, n) == 1 && d > 1 && n % d == 0
    ensures IsOrder(a, k, d) && n - 1 == c * k
  {
    hide PowMod, MulMod;
    PowModDivisor(a, n - 1, n, d);
    k := Order(a, n - 1, d);
    OrderDivides(a, k, n - 1, d);
    c := (n - 1) / k;
  }

  /** No prime of the certificate divides the cofactor of the order modulo d. */
  lemma WitnessCoprime(a: nat, n: nat, q: nat, u: nat, d: nat, k: nat, c: nat)
    requires n > 1 && IsPrime(q) && Unlike(PowMod(a, (n - 1) / q, n), u, n)
    requires d > 1 && n % d == 0 && PowMod(a, k, d) == 1 && n - 1 == c * k
    ensures Coprime(c, q)
  {
    hide PowMod, MulMod, Unlike, Coprime;
    PrimeBig(q);
    hide IsPrime;
    UnlikeDivisor(PowMod(a, (n - 1) / q, n), u, n, d);
    PowModDivisor(a, (n - 1) / q, n, d);
    CofactorCoprime(a, d, n - 1, k, c, q);
  }

  /** Every divisor of n other than 1 exceeds the product of the certificate's primes. */
  lemma LargeDivisor(a: nat, n: nat, qs: seq<nat>, us: seq<nat>, d: nat)
    requires Certificate(a, n, qs, us) && 2 <= d <= n && n % d == 0
    ensures d > Product(qs)
  {
    hide PowMod, Coprime, IsPrime, Unlike, Product, MulMod;
    var k, c := OrderModDivisor(a, n, d);
    forall q | q in qs ensures Coprime(c, q) {
      var i :| 0 <= i < |qs| && qs[i] == q;
      WitnessCoprime(a, n, q, us[i], d, k, c);
    }
    CoprimeAll(c, qs);
    DividesOther(Product(qs), c, k);
    OrderBelow(a, k, d);
  }

  lemma PrimeBig(q: nat)
    requires IsPrime(q)
    ensures q > 1
  {
  }

  lemma SquareBound(f: nat, d: nat, e: nat)
    requires f <= d && f <= e
    ensures f * f <= d * e
  {
    MulMonotone(f, d, f);
    MulMonotone(f, e, d);
  }

  lemma OtherDivisor(n: nat, d: nat) returns (e: nat)
    requires 2 <= d < n && n % d == 0
    ensures 2 <= e <= n && n == d * e && n % e == 0
  {
    e := n / d;
    assert n == e * d;
    if e <= 1 { MulMonotone(e, 1, d); }
    DivUnique(n, e, d, 0);
    MulMonotone(1, d, e);
  }

  /** A divisor need only be looked for up to the square root. */
  lemma RootPrime(n: nat, r: nat)
    requires n >= 2 && (r + 1) * (r + 1) > n && forall d :: 2 <= d <= r ==> n % d != 0
    ensures IsPrime(n)
  {
    forall d | 2 <= d < n ensures n % d != 0 {
      if n % d == 0 && d > r {
        var e := OtherDivisor(n, d);
        if e > r {
          SquareBound(r + 1, d, e);
        }
      }
    }
  }

  /** A number with a certificate is prime. */
  lemma Pocklington(a: nat, n: nat, qs: seq<nat>, us: seq<nat>)
    requires Certificate(a, n, qs, us)
    ensures IsPrime(n)
  {
    hide PowMod, Unlike, Product;
    var f := Product(qs);
    forall d | 2 <= d < n ensures n % d != 0 {
      if n % d == 0 {
        var e := OtherDivisor(n, d);
        LargeDivisor(a, n, qs, us, d);
        LargeDivisor(a, n, qs, us, e);
        SquareBound(f + 1, d, e);
      }
    }
  }

  // Checking a certificate: three squarings at a time.

  /** t is the d-th power of a base that the certificates use. */
  predicate Small(g: nat, d: nat, t: nat) {
    (g == 2 && d < 8 && t == [1, 2, 4, 8, 16, 32, 64, 128][d])
    || (g == 3 && d < 8 && t == [1, 3, 9, 27, 81, 243, 729, 2187][d])
    || (g == 5 && d < 8 && t == [1, 5, 25, 125, 625, 3125, 15625, 78125][d])
  }

  lemma SmallStep(g: nat, d: nat, t: nat)
    requires Small(g, d, t) && d > 0
    ensures t % g == 0 && Small(g, d - 1, t / g)
  {
  }

  lemma {:induction false} SmallPower(g: nat, d: nat, t: nat, n: nat)
    requires Small(g, d, t) && n > 0
    ensures PowMod(g, d, n) == t % n
  {
    if d > 0 {
      SmallStep(g, d, t);
      var u := t / g;
      assert t == u * g;
      SmallPower(g, d - 1, u, n);
      hide Small;
      ModMul(u, g, n);
      assert u % n * g == g * (u % n);
    }
  }

  lemma MulModBoth(a: nat, b: nat, n: nat)
    requires n > 0
    ensures MulMod(a % n, b % n, n) == a * b % n
  {
    ModMul(a, b, n);
    ModMul(b, a % n, n);
    assert a % n * b == b * (a % n) && a % n * (b % n) == b % n * (a % n);
  }

  /** Three squarings and a small factor. */
  predicate Octal(n: nat, r: nat, r2: nat, r4: nat, r8: nat, t: nat, s: nat)
    requires n > 0
  {
    r * r % n == r2 && r2 * r2 % n == r4 && r4 * r4 % n == r8 && r8 * t % n == s
  }

  /** The next octal digit d of the exponent. */
  lemma Digit(g: nat, n: nat, e: nat, r: nat, r2: nat, r4: nat, r8: nat, d: nat, t: nat, s: nat)
    requires n > 0 && PowMod(g, e, n) == r && Small(g, d, t) && Octal(n, r, r2, r4, r8, t, s)
    ensures PowMod(g, 8 * e + d, n) == s
  {
    hide PowMod, Small, MulMod, Octal;
    OctalSteps(n, r, r2, r4, r8, t, s);
    PowAdd(g, e, e, n);
    PowAdd(g, 2 * e, 2 * e, n);
    PowAdd(g, 4 * e, 4 * e, n);
    PowAdd(g, 8 * e, d, n);
    SmallPower(g, d, t, n);
  }

  lemma OctalSteps(n: nat, r: nat, r2: nat, r4: nat, r8: nat, t: nat, s: nat)
    requires n > 0 && Octal(n, r, r2, r4, r8, t, s)
    ensures MulMod(r, r, n) == r2 && MulMod(r2, r2, n) == r4 && MulMod(r4, r4, n) == r8 && MulMod(r8, t % n, n) == s
  {
    hide MulMod;
    IsMulMod(r, r, n, r2);
    IsMulMod(r2, r2, n, r4);
    IsMulMod(r4, r4, n, r8);
    MulModBoth(r8, t, n);
  }

  lemma IsMulMod(a: nat, b: nat, n: nat, c: nat)
    requires n > 0 && a * b % n == c
    ensures MulMod(a, b, n) == c && c % n == c
  {
  }

  lemma PowZero(g: nat, n: nat)
    requires n > 1
    ensures PowMod(g, 0, n) == 1
  {
  }
}
