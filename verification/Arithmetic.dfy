/** Facts about multiplication and division of natural numbers that the solver does not find on its own. */
module Arithmetic {

  lemma MulMonotone(a: int, b: int, k: int)
    requires a <= b && 0 <= k
    ensures a * k <= b * k
  {
  }

  lemma MulNonNegative(a: int, b: int)
    requires 0 <= a && 0 <= b
    ensures 0 <= a * b
  {
  }

  /** A number written as q * n + r with a remainder in range has quotient q and remainder r. */
  lemma DivUnique(x: int, n: int, q: int, r: int)
    requires n > 0 && x == q * n + r && 0 <= r < n
    ensures x / n == q && x % n == r
  {
    var p, s := x / n, x % n;
    assert x == p * n + s;
    assert (q - p) * n == s - r by {
      assert (q - p) * n == q * n - p * n;
    }
    assert (p - q) * n == -((q - p) * n);
    if q > p {
      MulMonotone(1, q - p, n);
    } else if q < p {
      MulMonotone(1, p - q, n);
    }
  }

  lemma DivMonotone(a: int, b: int, d: int)
    requires d > 0 && a <= b
    ensures a / d <= b / d
    ensures a / d == b / d ==> a % d <= b % d
  {
    var p, q := a / d, b / d;
    assert a == p * d + a % d && b == q * d + b % d;
    assert (q + 1) * d == q * d + d;
    if p > q {
      MulMonotone(q + 1, p, d);
    }
  }

  lemma Regroup(p: int, b: int, s: int, a: int, r: int)
    ensures (p * b + s) * a + r == p * (a * b) + (s * a + r)
  {
    assert (p * b + s) * a == p * b * a + s * a;
    assert p * b * a == p * (b * a);
    assert b * a == a * b;
  }

  lemma DigitsBelow(s: int, b: int, r: int, a: int)
    requires 0 <= s < b && 0 <= r < a
    ensures 0 <= s * a + r < a * b
  {
    MulNonNegative(s, a);
    MulMonotone(s, b - 1, a);
    assert (b - 1) * a == a * b - a;
  }

  lemma DivByProduct(x: int, a: int, b: int, q: int, r: int, p: int, s: int)
    requires x == q * a + r && 0 <= r < a && q == p * b + s && 0 <= s < b
    ensures a * b > 0 && x / (a * b) == p
  {
    Regroup(p, b, s, a, r);
    DigitsBelow(s, b, r, a);
    DivUnique(x, a * b, p, s * a + r);
  }

  lemma DivDiv(x: int, a: int, b: int)
    requires a > 0 && b > 0
    ensures a * b > 0 && x / a / b == x / (a * b)
  {
    DivByProduct(x, a, b, x / a, x % a, x / a / b, x / a % b);
  }

  lemma ModNext(u: nat, m: nat)
    requires m > 0
    ensures (u % m + 1) % m == (u + 1) % m == if u % m + 1 == m then 0 else u % m + 1
  {
    var q, r := u / m, u % m;
    RemainderNext(u, m, q, r);
  }

  lemma RemainderNext(u: nat, m: nat, q: nat, r: nat)
    requires u == q * m + r && r < m
    ensures (r + 1) % m == (u + 1) % m == if r + 1 == m then 0 else r + 1
  {
    assert (q + 1) * m == q * m + m;
    if r + 1 == m {
      DivUnique(u + 1, m, q + 1, 0);
      DivUnique(m, m, 1, 0);
    } else {
      DivUnique(u + 1, m, q, r + 1);
      DivUnique(r + 1, m, 0, r + 1);
    }
  }

  /** How many of the numbers lo .. hi - 1 leave the remainder t. */
  function CountIn(lo: nat, hi: nat, m: nat, t: nat): nat
    requires m > 0
    decreases hi - lo
  {
    if lo >= hi then 0 else (if lo % m == t then 1 else 0) + CountIn(lo + 1, hi, m, t)
  }

  /** Any m consecutive numbers meet every remainder once. */
  lemma {:induction false} CountWindow(lo: nat, m: nat, t: nat, n: nat)
    requires m > 0 && t < m && n <= m
    ensures CountIn(lo, lo + n, m, t) <= 1 && (n == m ==> CountIn(lo, lo + n, m, t) == 1)
    ensures CountIn(lo, lo + n, m, t) == 1 <==> (if t >= lo % m then t - lo % m else t + m - lo % m) < n
    decreases n
  {
    if n > 0 {
      ModNext(lo, m);
      CountWindow(lo + 1, m, t, n - 1);
    }
  }

  lemma {:induction false} CountSplit(lo: nat, mid: nat, hi: nat, m: nat, t: nat)
    requires m > 0 && lo <= mid <= hi
    ensures CountIn(lo, hi, m, t) == CountIn(lo, mid, m, t) + CountIn(mid, hi, m, t)
    decreases mid - lo
  {
    if lo < mid { CountSplit(lo + 1, mid, hi, m, t); }
  }
}
