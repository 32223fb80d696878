/** The prime table of the task dependence hash table, and division by multiplication with its inverses. */
module PrimeTable {
  import opened Arithmetic

  const TWO32: nat := 0x1_0000_0000

  datatype PrimeEnt = PrimeEnt(prime: nat, inv: nat, invM2: nat, shift: nat)

  const PRIME_TAB: seq<PrimeEnt> := [
    PrimeEnt(7, 0x24924925, 0x9999999b, 2),
    PrimeEnt(13, 0x3b13b13c, 0x745d1747, 3),
    PrimeEnt(31, 0x08421085, 0x1a7b9612, 4),
    PrimeEnt(61, 0x0c9714fc, 0x15b1e5f8, 5),
    PrimeEnt(127, 0x02040811, 0x0624dd30, 6),
    PrimeEnt(251, 0x05197f7e, 0x073260a5, 7),
    PrimeEnt(509, 0x01824366, 0x02864fc8, 8),
    PrimeEnt(1021, 0x00c0906d, 0x014191f7, 9),
    PrimeEnt(2039, 0x0121456f, 0x0161e69e, 10),
    PrimeEnt(4093, 0x00300902, 0x00501908, 11),
    PrimeEnt(8191, 0x00080041, 0x00180241, 12),
    PrimeEnt(16381, 0x000c0091, 0x00140191, 13),
    PrimeEnt(32749, 0x002605a5, 0x002a06e6, 14),
    PrimeEnt(65521, 0x000f00e2, 0x00110122, 15),
    PrimeEnt(131071, 0x00008001, 0x00018003, 16),
    PrimeEnt(262139, 0x00014002, 0x0001c004, 17),
    PrimeEnt(524287, 0x00002001, 0x00006001, 18),
    PrimeEnt(1048573, 0x00003001, 0x00005001, 19),
    PrimeEnt(2097143, 0x00004801, 0x00005801, 20),
    PrimeEnt(4194301, 0x00000c01, 0x00001401, 21),
    PrimeEnt(8388593, 0x00001e01, 0x00002201, 22),
    PrimeEnt(16777213, 0x00000301, 0x00000501, 23),
    PrimeEnt(33554393, 0x00001381, 0x00001481, 24),
    PrimeEnt(67108859, 0x00000141, 0x000001c1, 25),
    PrimeEnt(134217689, 0x000004e1, 0x00000521, 26),
    PrimeEnt(268435399, 0x00000391, 0x000003b1, 27),
    PrimeEnt(536870909, 0x00000019, 0x00000029, 28),
    PrimeEnt(1073741789, 0x0000008d, 0x00000095, 29),
    PrimeEnt(2147483647, 0x00000003, 0x00000007, 30),
    PrimeEnt(4294967291, 0x00000006, 0x00000008, 31)

  ]

  function Pow2(n: nat): (r: nat)
    ensures r > 0
  {
    if n == 0 then 1 else 2 * Pow2(n - 1)
  }

  /** htab_mod_1 in 32-bit unsigned arithmetic: the high half of a product, a subtraction that may wrap, two
      shifts and a subtraction of q * y that may wrap. */
  function Mod1(x: nat, y: nat, inv: nat, shift: nat): nat {
    var t1 := x * inv / TWO32;
    var t2 := (x - t1) % TWO32;
    var t3 := t2 / 2;
    var t4 := (t1 + t3) % TWO32;
    var q := t4 / Pow2(shift);
    (x - q * y) % TWO32
  }

  /** inv together with its implied bit 32 is an inverse of d, scaled by 2^(33 + shift) and rounded up by so
      little that no 32-bit dividend sees the error. */
  predicate Inverse(d: nat, inv: nat, shift: nat) {
    && d > 0 && inv < TWO32
    && var e := (TWO32 + inv) * d - 2 * TWO32 * Pow2(shift);
       0 <= e && (TWO32 - 1) / d * e < TWO32 + inv
       && (TWO32 - 1) / d * e + (TWO32 - 1) % d * (TWO32 + inv) < 2 * TWO32 * Pow2(shift)
  }

  /** The product of the dividend and the full inverse, split at the scale of the inverse. */
  lemma SplitProduct(x: int, d: int, q: int, r: int, m: int, n: int, e: int)
    requires x == q * d + r && m * d == n + e
    ensures x * m == q * n + (q * e + r * m)
  {
    calc {
      x * m;
      (q * d + r) * m;
      q * d * m + r * m;
      q * (m * d) + r * m;
      q * (n + e) + r * m;
      q * n + q * e + r * m;
    }
  }

  /** The quotient computed by multiplication is the true quotient. */
  lemma QuotientByInverse(x: nat, d: nat, inv: nat, shift: nat)
    requires x < TWO32 && Inverse(d, inv, shift)
    ensures x * (TWO32 + inv) / (2 * TWO32 * Pow2(shift)) == x / d
  {
    hide Pow2;
    var m := TWO32 + inv;
    var n := 2 * TWO32 * Pow2(shift);
    var e := m * d - n;
    var q, r := x / d, x % d;
    DivMonotone(x, TWO32 - 1, d);
    ErrorBelow(d, m, e, n, q, r, (TWO32 - 1) / d, (TWO32 - 1) % d);
    SplitProduct(x, d, q, r, m, n, e);
    DivUnique(x * m, n, q, q * e + r * m);
  }

  /** The error of the inverse stays below its scale for every quotient and remainder that can occur. */
  lemma ErrorBelow(d: int, m: int, e: int, n: int, q: int, r: int, qMax: int, rMax: int)
    requires m * d == n + e && 0 <= e && 0 <= m && 0 <= q <= qMax && 0 <= r < d && (q == qMax ==> r <= rMax)
    requires qMax * e < m && qMax * e + rMax * m < n
    ensures 0 <= q * e + r * m < n
  {
    MulNonNegative(q, e);
    MulNonNegative(r, m);
    if q < qMax {
      MulMonotone(q + 1, qMax, e);
      MulMonotone(r, d - 1, m);
      assert (q + 1) * e == q * e + e;
      assert (d - 1) * m == m * d - m;
    } else {
      MulMonotone(r, rMax, m);
    }
  }

  /** The averaging step adds the implied bit 32 of the inverse without leaving 32 bits. */
  lemma Average(x: nat, inv: nat)
    requires x < TWO32 && inv < TWO32
    ensures 0 <= x * inv / TWO32 <= x
    ensures x * inv / TWO32 + (x - x * inv / TWO32) / 2 == x * (TWO32 + inv) / (2 * TWO32)
  {
    var p := x * inv;
    MulNonNegative(x, inv);
    MulMonotone(inv, TWO32 - 1, x);
    assert p <= (TWO32 - 1) * x;
    assert x * (TWO32 + inv) == x * TWO32 + p;
  }

  /** With the right quotient nothing wraps and the difference is the remainder. */
  lemma NoWrap(x: nat, d: nat, t1: nat, p: nat)
    requires t1 <= x < TWO32 && d > 0 && p > 0 && (t1 + (x - t1) / 2) / p == x / d
    ensures (x - (t1 + (x - t1) % TWO32 / 2) % TWO32 / p * d) % TWO32 == x % d
  {
    assert (x - t1) % TWO32 == x - t1;
    assert (t1 + (x - t1) / 2) % TWO32 == t1 + (x - t1) / 2;
    assert x == x / d * d + x % d;
    MulNonNegative(x / d, d);
  }

  /** The averaged product, shifted, is the quotient. */
  lemma QuotientByAverage(x: nat, d: nat, inv: nat, shift: nat)
    requires x < TWO32 && Inverse(d, inv, shift)
    ensures var t1 := x * inv / TWO32; 0 <= t1 <= x && (t1 + (x - t1) / 2) / Pow2(shift) == x / d
  {
    assert d > 0;
    hide Inverse, Pow2;
    Average(x, inv);
    QuotientByInverse(x, d, inv, shift);
    Shifted(x * (TWO32 + inv), Pow2(shift));
  }

  lemma Shifted(product: int, p: nat)
    requires p > 0
    ensures product / (2 * TWO32 * p) == product / (2 * TWO32) / p
  {
    DivDiv(product, 2 * TWO32, p);
  }

  /** htab_mod_1 is the remainder, for every 32-bit dividend and every scaled inverse. */
  lemma Mod1Correct(x: nat, d: nat, inv: nat, shift: nat)
    requires x < TWO32 && Inverse(d, inv, shift)
    ensures Mod1(x, d, inv, shift) == x % d
  {
    assert d > 0;
    hide Inverse, Pow2;
    QuotientByAverage(x, d, inv, shift);
    NoWrap(x, d, x * inv / TWO32, Pow2(shift));
  }

  /** A row: the inverses of its prime and of its prime minus two. */
  predicate RowExact(e: PrimeEnt) {
    && e.prime > 2
    && Inverse(e.prime, e.inv, e.shift)
    && Inverse(e.prime - 2, e.invM2, e.shift)
  }

  lemma Powers()
    ensures Pow2(2) == 4
    ensures Pow2(3) == 8
    ensures Pow2(4) == 16
    ensures Pow2(5) == 32
    ensures Pow2(6) == 64
    ensures Pow2(7) == 128
    ensures Pow2(8) == 256
    ensures Pow2(9) == 512
    ensures Pow2(10) == 1024
    ensures Pow2(11) == 2048
    ensures Pow2(12) == 4096
    ensures Pow2(13) == 8192
    ensures Pow2(14) == 16384
    ensures Pow2(15) == 32768
    ensures Pow2(16) == 65536
    ensures Pow2(17) == 131072
    ensures Pow2(18) == 262144
    ensures Pow2(19) == 524288
    ensures Pow2(20) == 1048576
    ensures Pow2(21) == 2097152
    ensures Pow2(22) == 4194304
    ensures Pow2(23) == 8388608
    ensures Pow2(24) == 16777216
    ensures Pow2(25) == 33554432
    ensures Pow2(26) == 67108864
    ensures Pow2(27) == 134217728
    ensures Pow2(28) == 268435456
    ensures Pow2(29) == 536870912
    ensures Pow2(30) == 1073741824
    ensures Pow2(31) == 2147483648
  {
    assert Pow2(4) == 16;
    assert Pow2(8) == 256;
    assert Pow2(12) == 4096;
    assert Pow2(16) == 65536;
    assert Pow2(20) == 1048576;
    assert Pow2(24) == 16777216;
    assert Pow2(28) == 268435456;
  }

  lemma Rows0To4()
    ensures RowExact(PrimeEnt(7, 613566757, 2576980379, 2))
    ensures RowExact(PrimeEnt(13, 991146300, 1952257863, 3))
    ensures RowExact(PrimeEnt(31, 138547333, 444306962, 4))
    ensures RowExact(PrimeEnt(61, 211227900, 363980280, 5))
    ensures RowExact(PrimeEnt(127, 33818641, 103079216, 6))
  {
    Powers();
    hide Pow2;
  }

  lemma Rows5To9()
    ensures RowExact(PrimeEnt(251, 85557118, 120742053, 7))
    ensures RowExact(PrimeEnt(509, 25314150, 42356680, 8))
    ensures RowExact(PrimeEnt(1021, 12619885, 21074423, 9))
    ensures RowExact(PrimeEnt(2039, 18957679, 23193246, 10))
    ensures RowExact(PrimeEnt(4093, 3148034, 5249288, 11))
  {
    Powers();
    hide Pow2;
  }

  lemma Rows10To14()
    ensures RowExact(PrimeEnt(8191, 524353, 1573441, 12))
    ensures RowExact(PrimeEnt(16381, 786577, 1311121, 13))
    ensures RowExact(PrimeEnt(32749, 2491813, 2754278, 14))
    ensures RowExact(PrimeEnt(65521, 983266, 1114402, 15))
    ensures RowExact(PrimeEnt(131071, 32769, 98307, 16))
  {
    Powers();
    hide Pow2;
  }

  lemma Rows15To19()
    ensures RowExact(PrimeEnt(262139, 81922, 114692, 17))
    ensures RowExact(PrimeEnt(524287, 8193, 24577, 18))
    ensures RowExact(PrimeEnt(1048573, 12289, 20481, 19))
    ensures RowExact(PrimeEnt(2097143, 18433, 22529, 20))
    ensures RowExact(PrimeEnt(4194301, 3073, 5121, 21))
  {
    Powers();
    hide Pow2;
  }

  lemma Rows20To24()
    ensures RowExact(PrimeEnt(8388593, 7681, 8705, 22))
    ensures RowExact(PrimeEnt(16777213, 769, 1281, 23))
    ensures RowExact(PrimeEnt(33554393, 4993, 5249, 24))
    ensures RowExact(PrimeEnt(67108859, 321, 449, 25))
    ensures RowExact(PrimeEnt(134217689, 1249, 1313, 26))
  {
    Powers();
    hide Pow2;
  }

  lemma Rows25To29()
    ensures RowExact(PrimeEnt(268435399, 913, 945, 27))
    ensures RowExact(PrimeEnt(536870909, 25, 41, 28))
    ensures RowExact(PrimeEnt(1073741789, 141, 149, 29))
    ensures RowExact(PrimeEnt(2147483647, 3, 7, 30))
    ensures RowExact(PrimeEnt(4294967291, 6, 8, 31))
  {
    Powers();
    hide Pow2;
  }

  lemma Row(i: nat)
    requires i < |PRIME_TAB|
    ensures RowExact(PRIME_TAB[i])
  {
    Rows0To4();
    Rows5To9();
    Rows10To14();
    Rows15To19();
    Rows20To24();
    Rows25To29();
    hide RowExact;
  }

  lemma NextRow(i: nat)
    requires i + 1 < |PRIME_TAB|
    ensures PRIME_TAB[i].prime + 1 < PRIME_TAB[i + 1].prime
  {
  }

  lemma {:induction false} Increasing(i: nat, j: nat)
    requires i < j < |PRIME_TAB|
    ensures PRIME_TAB[i].prime + 1 < PRIME_TAB[j].prime
  {
    NextRow(j - 1);
    if i < j - 1 {
      Increasing(i, j - 1);
    }
  }

  /** The row that higher_prime_index selects: the first whose prime is at least n. */
  ghost predicate IsHigherIndex(n: nat, i: nat) {
    && i < |PRIME_TAB|
    && n <= PRIME_TAB[i].prime
    && forall j :: 0 <= j < i ==> PRIME_TAB[j].prime < n
  }

  lemma TableSize(n: nat)
    ensures |PRIME_TAB| == 30
    ensures n > 0xfffffffb <==> forall j :: 0 <= j < 30 ==> PRIME_TAB[j].prime < n
  {
    assert PRIME_TAB[29].prime == 0xfffffffb;
    forall j | 0 <= j < 29 ensures PRIME_TAB[j].prime < 0xfffffffb { Increasing(j, 29); }
  }

  lemma FirstRow(n: nat, i: nat)
    requires i < |PRIME_TAB| && n <= PRIME_TAB[i].prime && forall j :: 0 <= j < i ==> PRIME_TAB[j].prime < n
    ensures IsHigherIndex(n, i)
  {
  }

  datatype IndexResult = Index(i: nat) | OutOfPrimes

  /** higher_prime_index: a binary search; with every prime below n the search ends past the table. */
  method HigherPrimeIndex(n: nat) returns (r: IndexResult)
    ensures r.Index? ==> IsHigherIndex(n, r.i)
    ensures r.OutOfPrimes? <==> n > 0xfffffffb
  {
    TableSize(n);
    hide *;
    var low, high := 0, |PRIME_TAB|;
    while low != high
      invariant low <= high <= |PRIME_TAB|
      invariant forall j :: 0 <= j < low ==> PRIME_TAB[j].prime < n
      invariant forall j :: high <= j < |PRIME_TAB| ==> n <= PRIME_TAB[j].prime
      decreases high - low
    {
      var mid := low + (high - low) / 2;
      if n > PRIME_TAB[mid].prime {
        forall j | 0 <= j < mid ensures PRIME_TAB[j].prime < n { Increasing(j, mid); }
        low := mid + 1;
      } else {
        forall j | mid < j < |PRIME_TAB| ensures n <= PRIME_TAB[j].prime { Increasing(mid, j); }
        high := mid;
      }
    }
    if low == |PRIME_TAB| || n > PRIME_TAB[low].prime {
      return OutOfPrimes;
    }
    FirstRow(n, low);
    return Index(low);
  }

  lemma HigherIndexUnique(n: nat, i: nat, j: nat)
    requires IsHigherIndex(n, i) && IsHigherIndex(n, j)
    ensures i == j
  {
  }

  /** A table that is rebuilt at its own size asks for one entry less and gets its own row again. */
  lemma SameRow(i: nat)
    requires i < |PRIME_TAB|
    ensures IsHigherIndex(PRIME_TAB[i].prime - 1, i)
  {
    forall j | 0 <= j < i ensures PRIME_TAB[j].prime < PRIME_TAB[i].prime - 1 { Increasing(j, i); }
  }

  /** htab_mod: the home slot. */
  function Home(hash: nat, i: nat): nat
    requires i < |PRIME_TAB|
  {
    Mod1(hash, PRIME_TAB[i].prime, PRIME_TAB[i].inv, PRIME_TAB[i].shift)
  }

  /** htab_mod_m2: the distance between probes. */
  function ProbeStep(hash: nat, i: nat): nat
    requires i < |PRIME_TAB|
  {
    1 + Mod1(hash, PRIME_TAB[i].prime - 2, PRIME_TAB[i].invM2, PRIME_TAB[i].shift)
  }

  /** In every row the multiplications compute the two remainders, and the probe step is in 1 .. prime - 2. */
  lemma RowMods(hash: nat, i: nat)
    requires hash < TWO32 && i < |PRIME_TAB|
    ensures PRIME_TAB[i].prime > 2
    ensures Home(hash, i) == hash % PRIME_TAB[i].prime < PRIME_TAB[i].prime
    ensures ProbeStep(hash, i) == 1 + hash % (PRIME_TAB[i].prime - 2)
    ensures 1 <= ProbeStep(hash, i) <= PRIME_TAB[i].prime - 2
  {
    Row(i);
    var e := PRIME_TAB[i];
    hide Inverse, Mod1, Pow2;
    Mod1Correct(hash, e.prime, e.inv, e.shift);
    Mod1Correct(hash, e.prime - 2, e.invM2, e.shift);
  }
}
