/** The arithmetic of long and unsigned long: 64 bits, in two's complement. */
module Longs {
  import opened Arithmetic

  const TWO64: nat := 0x1_0000_0000_0000_0000
  const LONG_MAX: int := 0x7fff_ffff_ffff_ffff

  predicate IsLong(x: int) {
    -LONG_MAX - 1 <= x <= LONG_MAX
  }

  /** x as a long. */
  function Wrap(x: int): (r: int)
    ensures IsLong(r)
    ensures IsLong(x) ==> r == x
  {
    (x + LONG_MAX + 1) % TWO64 - LONG_MAX - 1
  }

  /** The division of C, which truncates. */
  function Quotient(a: int, b: int): int
    requires b != 0
  {
    if a >= 0 then (if b > 0 then a / b else -(a / -b)) else (if b > 0 then -(-a / b) else -a / -b)
  }

  /** The number of steps of size incr in the distance d, as the schedulers compute it: a difference of longs, divided, and
      stored in an unsigned long. */
  function StepCount(d: int, incr: int): (n: nat)
    requires incr != 0
    ensures n < TWO64
  {
    Quotient(Wrap(d), incr) % TWO64
  }

  function Abs(x: int): nat {
    if x >= 0 then x else -x
  }

  /** The number of steps is right if and only if the difference is a long or the step is 1 or -1. */
  lemma StepCountIff(d: int, incr: int)
    requires IsLong(incr) && incr != 0 && (incr > 0 ==> d >= 0) && (incr < 0 ==> d <= 0)
    requires Abs(d) <= TWO64 - 1 + (Abs(incr) - 1)
    ensures StepCount(d, incr) == Abs(d) / Abs(incr) <==> IsLong(d) || Abs(incr) == 1
  {
    var a, w := Abs(d), Abs(incr);
    DivMonotone(0, a, w);
    if IsLong(d) {
      ShortCount(d, incr);
    } else {
      LongCount(d, incr);
    }
  }

  lemma SmallMod(x: nat)
    requires x < TWO64
    ensures x % TWO64 == x
  {
  }

  /** A quotient does not exceed its dividend. */
  lemma QuotientBelow(a: nat, w: nat)
    requires w > 0
    ensures 0 <= a / w <= a
    ensures a / w * w <= a && (w <= a ==> a / w >= 1)
  {
    var q := a / w;
    assert a == q * w + a % w;
    DivMonotone(0, a, w);
    MulMonotone(1, w, q);
    if w <= a && q == 0 {
      DivUnique(a, w, 0, a);
    }
  }

  lemma ShortCount(d: int, incr: int)
    requires incr != 0 && IsLong(d) && (incr > 0 ==> d >= 0) && (incr < 0 ==> d <= 0)
    ensures StepCount(d, incr) == Abs(d) / Abs(incr)
  {
    hide Wrap;
    QuotientBelow(Abs(d), Abs(incr));
    SmallMod(Abs(d) / Abs(incr));
    assert Quotient(d, incr) == Abs(d) / Abs(incr);
  }

  /** What the wrapped difference is. */
  lemma WrapFar(d: int)
    requires !IsLong(d) && Abs(d) < TWO64 + LONG_MAX
    ensures Wrap(d) == if d > 0 then d - TWO64 else d + TWO64
  {
  }

  lemma NegMod(u: nat)
    requires 0 < u <= TWO64
    ensures -(u as int) % TWO64 == TWO64 - u
  {
  }

  lemma LongCount(d: int, incr: int)
    requires IsLong(incr) && incr != 0 && (incr > 0 ==> d >= 0) && (incr < 0 ==> d <= 0) && !IsLong(d)
    requires Abs(d) <= TWO64 - 1 + (Abs(incr) - 1)
    ensures StepCount(d, incr) == Abs(d) / Abs(incr) <==> Abs(incr) == 1
  {
    var a, w := Abs(d), Abs(incr);
    WrapFar(d);
    hide Wrap;
    if a < TWO64 {
      var u := TWO64 - a;
      assert Quotient(Wrap(d), incr) == -(u / w);
      NegativeCount(a, u, w);
    } else {
      var u := a - TWO64;
      QuotientBelow(u, w);
      SmallMod(u / w);
      assert Quotient(Wrap(d), incr) == u / w;
      QuotientsDiffer(u, a, w);
    }
  }

  lemma NegativeCount(a: nat, u: nat, w: nat)
    requires 0 < w <= LONG_MAX + 1 && LONG_MAX < a < TWO64 && u == TWO64 - a && w <= a
    ensures -(u / w) % TWO64 == a / w <==> w == 1
  {
    QuotientBelow(u, w);
    QuotientBelow(a, w);
    if w == 1 {
      DivUnique(u, 1, u, 0);
      DivUnique(a, 1, a, 0);
      NegMod(u);
    } else {
      MulMonotone(2, w, a / w);
      MulMonotone(2, w, u / w);
      if u / w == 0 {
        SmallMod(0);
      } else {
        NegMod(u / w);
      }
    }
  }

  lemma QuotientsDiffer(u: nat, a: nat, w: nat)
    requires 0 < w <= LONG_MAX + 1 && a == u + TWO64
    ensures u / w != a / w
  {
    var q := u / w;
    assert u == q * w + u % w;
    assert (q + 1) * w == q * w + w;
    assert a == a / w * w + a % w;
  }
}
