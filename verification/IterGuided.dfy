/** Guided loop scheduling: each block takes its share of the iterations that remain. */
module IterGuided {
  import opened Arithmetic
  import opened Longs

  /** The fields that the allocator reads, and the number of threads of the team. */
  datatype Loop = Loop(end: int, incr: int, chunk: nat, nthreads: nat)

  predicate Proper(l: Loop) {
    l.incr != 0 && l.nthreads > 0
  }

  function Left(l: Loop, x: int): int {
    if l.incr > 0 then l.end - x else x - l.end
  }

  function Width(l: Loop): int {
    if l.incr > 0 then l.incr else -l.incr
  }

  /** A thread's share of n steps, rounded up. */
  function RoundedUp(n: int, t: nat): int
    requires t > 0
  {
    (n + t - 1) / t
  }

  /** The same with a sum in 64 bits. */
  function RoundedUp64(n: int, t: nat): int
    requires t > 0
  {
    (n + t - 1) % TWO64 / t
  }

  function AtLeastChunk(l: Loop, q: int): int {
    if q < l.chunk then l.chunk else q
  }

  /** The end of the block that starts at x, in unbounded arithmetic. */
  function BlockEnd(l: Loop, x: int): int
    requires Proper(l)
  {
    var n := Quotient(l.end - x, l.incr);
    var q := AtLeastChunk(l, RoundedUp(n, l.nthreads));
    if q <= n then x + q * l.incr else l.end
  }

  /** The same as the code computes it, in longs and unsigned longs. */
  function ComputedEnd(l: Loop, x: int): int
    requires Proper(l)
  {
    var n := StepCount(l.end - x, l.incr);
    var q := AtLeastChunk(l, RoundedUp64(n, l.nthreads));
    if q <= n then Wrap(x + q * l.incr) else l.end
  }

  /** Whole steps that remain before the end. */
  function Steps(l: Loop, r: int): int
    requires Proper(l)
  {
    r / Width(l)
  }

  function Quota(l: Loop, n: nat): (q: nat)
    requires Proper(l)
    ensures q >= l.chunk && q * l.nthreads >= n
  {
    var q0 := RoundedUp(n, l.nthreads);
    assert q0 * l.nthreads >= n;
    if q0 < l.chunk then (MulMonotone(q0, l.chunk, l.nthreads); l.chunk) else q0
  }

  /** What remains after a block, as a distance to the end. */
  function After(l: Loop, r: nat): (s: int)
    requires Proper(l)
  {
    var q := Quota(l, Steps(l, r));
    if q <= Steps(l, r) then r - q * Width(l) else 0
  }

  lemma QuotientLeft(l: Loop, x: int)
    requires Proper(l) && Left(l, x) >= 0
    ensures Quotient(l.end - x, l.incr) == Steps(l, Left(l, x)) >= 0
  {
    DivMonotone(0, Left(l, x), Width(l));
  }

  lemma QuotaIs(l: Loop, n: nat)
    requires Proper(l)
    ensures Quota(l, n) == AtLeastChunk(l, RoundedUp(n, l.nthreads))
  {
    hide RoundedUp;
  }

  /** Going q steps on, in either direction. */
  lemma StepsOn(l: Loop, x: int, q: int)
    requires Proper(l)
    ensures Left(l, x + q * l.incr) == Left(l, x) - q * Width(l)
  {
    assert q * -l.incr == -(q * l.incr);
  }

  /** The allocator in terms of distances, in either direction. */
  lemma BlockLeft(l: Loop, x: int)
    requires Proper(l) && Left(l, x) >= 0
    ensures Left(l, BlockEnd(l, x)) == After(l, Left(l, x))
  {
    hide Quotient, Steps, Quota, Width;
    QuotientLeft(l, x);
    var n := Steps(l, Left(l, x));
    QuotaIs(l, n);
    StepsOn(l, x, Quota(l, n));
  }

  /** The fields are longs, and the team is a team. */
  predicate Sized(l: Loop, x: int) {
    IsLong(l.end) && IsLong(x) && IsLong(l.incr) && 0 < l.nthreads < 0x1_0000_0000
  }

  /** The sum that rounds the share up stays in 64 bits, or the chunk is at least the share anyway. */
  predicate RoundsUp(l: Loop, x: int)
    requires l.nthreads > 0
  {
    Left(l, x) + l.nthreads - 1 < TWO64 || l.chunk >= RoundedUp(Left(l, x), l.nthreads)
  }

  /** The block at x is computed right: the difference is a long, or the step is 1 or -1 and the share is rounded up right. */
  predicate Counted(l: Loop, x: int) {
    Sized(l, x) && (IsLong(l.end - x) || (Width(l) == 1 && RoundsUp(l, x)))
  }

  /** The number of steps is right if and only if the difference is a long or the step is 1 or -1. */
  lemma StepsIff(l: Loop, x: int)
    requires Proper(l) && IsLong(l.end) && IsLong(x) && IsLong(l.incr) && Left(l, x) >= 0
    ensures StepCount(l.end - x, l.incr) == Steps(l, Left(l, x)) <==> IsLong(l.end - x) || Width(l) == 1
  {
    StepCountIff(l.end - x, l.incr);
    hide StepCount;
  }

  /** A loop over almost all longs by twos: the code takes no step to remain, and hands it out whole. */
  lemma WholeAtOnce()
    ensures var l, start := Loop(LONG_MAX, 2, 1, 4), -LONG_MAX - 1;
            Proper(l) && ComputedEnd(l, start) == l.end && BlockEnd(l, start) != l.end
  {
  }

  /** A loop over all longs by ones: the steps are counted right, but the rounding sum wraps, and after three blocks of one
      iteration comes one of 2^62 - 1. */
  lemma OneByOne()
    ensures var l, start := Loop(LONG_MAX, 1, 1, 4), -LONG_MAX - 1;
            && Proper(l) && StepCount(l.end - start, l.incr) == Steps(l, Left(l, start)) && !RoundsUp(l, start)
            && ComputedEnd(l, start) == start + 1 && ComputedEnd(l, start + 1) == start + 2 && ComputedEnd(l, start + 2) == start + 3
            && ComputedEnd(l, start + 3) == start + 0x4000_0000_0000_0002
            && BlockEnd(l, start) == start + 0x4000_0000_0000_0000
  {
    var l, start := Loop(LONG_MAX, 1, 1, 4), -LONG_MAX - 1;
    assert BlockEnd(l, start) == start + 0x4000_0000_0000_0000 && !RoundsUp(l, start);
    assert StepCount(l.end - start, l.incr) == Steps(l, Left(l, start));
    hide BlockEnd, ComputedEnd, StepCount, Steps, RoundsUp;
    OneStep(l, start, 0);
    OneStep(l, start, 1);
    OneStep(l, start, 2);
    LongStep(l, start + 3);
  }

  lemma OneStep(l: Loop, start: int, k: nat)
    requires l == Loop(LONG_MAX, 1, 1, 4) && start == -LONG_MAX - 1 && k < 3
    ensures ComputedEnd(l, start + k) == start + k + 1
  {
    assert StepCount(l.end - (start + k), 1) == TWO64 - 1 - k;
    hide StepCount;
    assert (TWO64 - 1 - k + 4 - 1) % TWO64 == 2 - k;
  }

  lemma LongStep(l: Loop, x: int)
    requires l == Loop(LONG_MAX, 1, 1, 4) && x == -LONG_MAX + 2
    ensures ComputedEnd(l, x) == x + 0x3fff_ffff_ffff_ffff
  {
    assert StepCount(l.end - x, 1) == TWO64 - 4;
    hide StepCount;
  }

  /** A loop by fours from the least long to 0: the first block ends far beyond the end. */
  lemma BeyondEnd()
    ensures var l, start := Loop(0, 4, 1, 4), -LONG_MAX - 1;
            Proper(l) && ComputedEnd(l, start) == 3 * 0x2000_0000_0000_0000 > l.end && BlockEnd(l, start) < l.end
  {
  }

  lemma StepsBelow(l: Loop, x: int)
    requires Proper(l) && Left(l, x) >= 0
    ensures 0 <= Steps(l, Left(l, x)) <= Left(l, x) && Steps(l, Left(l, x)) * Width(l) <= Left(l, x)
    ensures Width(l) == 1 ==> Steps(l, Left(l, x)) == Left(l, x)
  {
    QuotientBelow(Left(l, x), Width(l));
    if Width(l) == 1 { DivUnique(Left(l, x), 1, Left(l, x), 0); }
  }

  /** The share as the code computes it is right, or too small. */
  lemma ShareIs(n: nat, t: nat)
    requires 0 < t < 0x1_0000_0000 && n < TWO64
    ensures n + t - 1 < TWO64 ==> 0 <= RoundedUp64(n, t) == RoundedUp(n, t)
    ensures n + t - 1 >= TWO64 ==> 0 <= RoundedUp64(n, t) < RoundedUp(n, t)
  {
    var sum := n + t - 1;
    if sum >= TWO64 {
      DivUnique(sum, TWO64, 1, sum - TWO64);
      WrappedShare(sum - TWO64, sum, t);
    } else {
      SmallMod(sum);
      DivMonotone(0, sum, t);
      DivUnique(0, t, 0, 0);
    }
  }

  lemma WrappedShare(a: nat, b: nat, t: nat)
    requires 0 < t && a + t <= b
    ensures 0 <= a / t < b / t
  {
    DivMonotone(0, a, t);
    DivMonotone(a + t, b, t);
    DivUnique(0, t, 0, 0);
    DivUnique(a + t, t, a / t + 1, a % t);
  }

  lemma ComputedIs(l: Loop, x: int)
    requires Proper(l) && Left(l, x) >= 0 && Counted(l, x)
    ensures ComputedEnd(l, x) == BlockEnd(l, x)
  {
    hide StepCount, Quotient, Wrap, Steps, RoundedUp, RoundedUp64, AtLeastChunk;
    StepsIff(l, x);
    QuotientLeft(l, x);
    StepsBelow(l, x);
    var n := Steps(l, Left(l, x));
    SameShare(l, x, n);
    hide Counted;
    LongSteps(l, x, n, AtLeastChunk(l, RoundedUp(n, l.nthreads)));
  }

  lemma SameShare(l: Loop, x: int, n: nat)
    requires Proper(l) && Left(l, x) >= 0 && Counted(l, x) && n <= Left(l, x) && (Width(l) == 1 ==> n == Left(l, x))
    ensures AtLeastChunk(l, RoundedUp64(n, l.nthreads)) == AtLeastChunk(l, RoundedUp(n, l.nthreads)) >= 0
  {
    hide RoundedUp, RoundedUp64;
    ShareIs(n, l.nthreads);
  }

  lemma LongSteps(l: Loop, x: int, n: nat, q: nat)
    requires Proper(l) && IsLong(l.end) && IsLong(x) && n * Width(l) <= Left(l, x)
    ensures q <= n ==> Wrap(x + q * l.incr) == x + q * l.incr
  {
    if q <= n {
      MulMonotone(q, n, Width(l));
      MulMonotone(0, q, Width(l));
      BetweenIsLong(l, x, q);
    }
  }

  /** With a step of 1 or -1 the block is right if and only if the share is rounded up right. */
  lemma ComputedIff(l: Loop, x: int)
    requires Proper(l) && Sized(l, x) && Left(l, x) >= 0 && Width(l) == 1
    ensures ComputedEnd(l, x) == BlockEnd(l, x) <==> RoundsUp(l, x)
  {
    if RoundsUp(l, x) {
      ComputedIs(l, x);
    } else {
      TooSmall(l, x);
    }
  }

  lemma TooSmall(l: Loop, x: int)
    requires Proper(l) && Sized(l, x) && Left(l, x) >= 0 && Width(l) == 1 && !RoundsUp(l, x)
    ensures ComputedEnd(l, x) != BlockEnd(l, x)
  {
    hide StepCount, Quotient, Wrap, Steps, RoundedUp, RoundedUp64;
    StepsIff(l, x);
    QuotientLeft(l, x);
    StepsBelow(l, x);
    var n, t := Left(l, x), l.nthreads;
    ShareIs(n, t);
    ShareBelow(n, t);
    LongSteps(l, x, n, AtLeastChunk(l, RoundedUp64(n, t)));
  }

  lemma ShareBelow(n: nat, t: nat)
    requires t > 0 && n > 0
    ensures RoundedUp(n, t) <= n
  {
    var q := RoundedUp(n, t);
    assert n + t - 1 == q * t + (n + t - 1) % t;
    assert (n + 1) * t == n * t + t;
    MulMonotone(1, t, n);
    if q > n { MulMonotone(n + 1, q, t); }
  }

  lemma BetweenIsLong(l: Loop, x: int, q: nat)
    requires Proper(l) && IsLong(l.end) && IsLong(x) && 0 <= q * Width(l) <= Left(l, x)
    ensures Wrap(x + q * l.incr) == x + q * l.incr
  {
    assert q * -l.incr == -(q * l.incr);
  }

  lemma CountedFurther(l: Loop, start: int, x: int)
    requires Proper(l) && Counted(l, start) && 0 <= Left(l, x) <= Left(l, start)
    ensures Counted(l, x)
  {
    DivMonotone(Left(l, x) + l.nthreads - 1, Left(l, start) + l.nthreads - 1, l.nthreads);
  }

  lemma AfterBelow(l: Loop, r: nat)
    requires Proper(l)
    ensures 0 <= After(l, r) <= r
    ensures l.chunk >= 1 && r > 0 ==> After(l, r) < r
    ensures var n, m, q := Steps(l, r), Steps(l, After(l, r)), Quota(l, Steps(l, r));
            if q <= n then m == n - q && After(l, r) == r - q * Width(l) else m == 0 == After(l, r)
  {
    DivMonotone(0, r, Width(l));
    var q := Quota(l, Steps(l, r));
    if q <= Steps(l, r) {
      TakeSteps(r, Width(l), q);
    } else {
      DivUnique(0, Width(l), 0, 0);
    }
    hide Quota;
  }

  /** Taking q whole steps of size w off a distance r. */
  lemma TakeSteps(r: nat, w: nat, q: nat)
    requires w > 0 && q <= r / w
    ensures 0 <= r - q * w <= r && (q >= 1 ==> r - q * w < r) && (r - q * w) / w == r / w - q
  {
    var n, e := r / w, r % w;
    assert r == n * w + e;
    assert (n - q) * w == n * w - q * w;
    MulMonotone(0, n - q, w);
    MulMonotone(0, q, w);
    MulMonotone(1, w, q);
    DivUnique(r - q * w, w, n - q, e);
  }

  type Block = (int, int)

  /** The blocks from x to the end, for a chunk of at least 1. */
  function Tiling(l: Loop, x: int): seq<Block>
    requires Proper(l) && l.chunk >= 1 && Left(l, x) >= 0
    decreases Left(l, x)
  {
    if x == l.end then []
    else
      BlockLeft(l, x);
      AfterBelow(l, Left(l, x));
      [(x, BlockEnd(l, x))] + Tiling(l, BlockEnd(l, x))
  }

  /** r is n whole steps and less than one more. */
  predicate WholeSteps(l: Loop, r: int, n: nat) {
    n * Width(l) <= r < n * Width(l) + Width(l)
  }

  /** q is the least number that is at least the chunk and that nthreads times covers n. */
  predicate LeastShare(l: Loop, n: nat, q: nat) {
    && q >= l.chunk && q * l.nthreads >= n
    && (q > 0 ==> q - 1 < l.chunk || (q - 1) * l.nthreads < n)
  }

  /** The block takes the least such number of the steps that remain, or all that is left if fewer remain. */
  ghost predicate Fair(l: Loop, b: Block) {
    exists n: nat, q: nat ::
      WholeSteps(l, Left(l, b.0), n) && LeastShare(l, n, q) && b.1 == if q <= n then b.0 + q * l.incr else l.end
  }

  lemma FairBlock(l: Loop, x: int)
    requires Proper(l) && Left(l, x) >= 0
    ensures Fair(l, (x, BlockEnd(l, x)))
  {
    hide Quotient, Steps, RoundedUp, Quota, LeastShare;
    QuotientLeft(l, x);
    var n: nat := Steps(l, Left(l, x));
    WholeStepsAre(l, Left(l, x));
    QuotaIs(l, n);
    QuotaLeast(l, n);
    assert WholeSteps(l, Left(l, x), n) && LeastShare(l, n, Quota(l, n));
  }

  lemma WholeStepsAre(l: Loop, r: nat)
    requires Proper(l)
    ensures Steps(l, r) >= 0 && WholeSteps(l, r, Steps(l, r))
  {
    DivMonotone(0, r, Width(l));
  }

  lemma QuotaLeast(l: Loop, n: nat)
    requires Proper(l)
    ensures LeastShare(l, n, Quota(l, n))
  {
    var t := l.nthreads;
    var q := RoundedUp(n, t);
    assert n + t - 1 == q * t + (n + t - 1) % t;
    assert (q - 1) * t == q * t - t;
  }

  /** Where a block starts decides where a fair one ends. */
  lemma FairIsOne(l: Loop, x: int, y: int, z: int)
    requires Proper(l) && Fair(l, (x, y)) && Fair(l, (x, z))
    ensures y == z
  {
    var n: nat, q: nat :| WholeSteps(l, Left(l, x), n) && LeastShare(l, n, q) && y == if q <= n then x + q * l.incr else l.end;
    var m: nat, p: nat :| WholeSteps(l, Left(l, x), m) && LeastShare(l, m, p) && z == if p <= m then x + p * l.incr else l.end;
    StepsOnce(l, Left(l, x), n, m);
    ShareOnce(l, n, q, p);
  }

  lemma StepsOnce(l: Loop, r: int, n: nat, m: nat)
    requires Proper(l) && WholeSteps(l, r, n) && WholeSteps(l, r, m)
    ensures n == m
  {
    if n < m { MulMonotone(n + 1, m, Width(l)); } else if m < n { MulMonotone(m + 1, n, Width(l)); }
  }

  lemma ShareOnce(l: Loop, n: nat, q: nat, p: nat)
    requires LeastShare(l, n, q) && LeastShare(l, n, p)
    ensures q == p
  {
    if q < p { MulMonotone(q, p - 1, l.nthreads); } else if p < q { MulMonotone(p, q - 1, l.nthreads); }
  }

  /** Every block of the tiling is fair. */
  lemma {:induction false} TilingFair(l: Loop, x: int, i: nat)
    requires Proper(l) && l.chunk >= 1 && Left(l, x) >= 0 && i < |Tiling(l, x)|
    ensures Fair(l, Tiling(l, x)[i])
    decreases i
  {
    FairBlock(l, x);
    BlockLeft(l, x);
    AfterBelow(l, Left(l, x));
    hide BlockEnd, Fair, After;
    if i > 0 { TilingFair(l, BlockEnd(l, x), i - 1); }
  }

  function SizeOf(l: Loop, b: Block): int {
    Left(l, b.0) - Left(l, b.1)
  }

  /** Consecutive non-empty blocks from lo to hi. */
  ghost predicate Tiles(l: Loop, s: seq<Block>, lo: int, hi: int) {
    && (s == [] ==> lo == hi)
    && (s != [] ==> s[0].0 == lo && s[|s| - 1].1 == hi)
    && (forall i :: 0 <= i < |s| - 1 ==> s[i].1 == s[i + 1].0)
    && (forall i :: 0 <= i < |s| ==> SizeOf(l, s[i]) > 0)
  }

  lemma ShareMonotone(l: Loop, m: nat, n: nat)
    requires Proper(l) && m <= n
    ensures Quota(l, m) <= Quota(l, n)
  {
    DivMonotone(m + l.nthreads - 1, n + l.nthreads - 1, l.nthreads);
  }

  /** The next block is not larger, also when it is the last one and takes what is left. */
  lemma SmallerNext(l: Loop, r: nat)
    requires Proper(l) && l.chunk >= 1
    ensures var s := After(l, r); 0 <= s && r - s >= s - After(l, s)
  {
    DivMonotone(0, r, Width(l));
    AfterBelow(l, r);
    var s := After(l, r);
    DivMonotone(0, s, Width(l));
    AfterBelow(l, s);
    var n, m := Steps(l, r), Steps(l, s);
    if Quota(l, n) <= n {
      ShareMonotone(l, m, n);
      ShareCovers(Width(l), s, Quota(l, m), Quota(l, n));
    }
  }

  /** A share that the rest does not exceed, in whole steps, is at least the rest. */
  lemma ShareCovers(w: nat, s: nat, p: nat, q: nat)
    requires w > 0 && p <= q
    ensures p > s / w ==> q * w >= s
    ensures p * w <= q * w
  {
    var m := s / w;
    assert s == m * w + s % w;
    MulMonotone(p, q, w);
    assert (m + 1) * w == m * w + w;
    if p > m {
      MulMonotone(m + 1, p, w);
    }
  }

  /** The blocks tile the loop exactly, and never grow. */
  lemma {:induction false} TilingTiles(l: Loop, x: int)
    requires Proper(l) && l.chunk >= 1 && Left(l, x) >= 0
    ensures Tiles(l, Tiling(l, x), x, l.end)
    ensures forall i :: 0 <= i < |Tiling(l, x)| - 1 ==> SizeOf(l, Tiling(l, x)[i]) >= SizeOf(l, Tiling(l, x)[i + 1])
    decreases Left(l, x)
  {
    if x != l.end {
      BlockLeft(l, x);
      AfterBelow(l, Left(l, x));
      var y := BlockEnd(l, x);
      TilingTiles(l, y);
      SmallerNext(l, Left(l, x));
      BlockLeft(l, y);
      var t := Tiling(l, y);
      assert Tiling(l, x) == [(x, y)] + t;
      assert t == [] ==> y == l.end;
      assert t != [] ==> t[0] == (y, BlockEnd(l, y));
      hide BlockEnd, After, Steps, Quota, Tiling;
      FrontBlock(l, (x, y), t);
    }
  }

  /** One more block in front of a tiling. */
  lemma FrontBlock(l: Loop, b: Block, t: seq<Block>)
    requires Tiles(l, t, b.1, l.end) && SizeOf(l, b) > 0 && (t != [] ==> SizeOf(l, b) >= SizeOf(l, t[0]))
    requires forall i :: 0 <= i < |t| - 1 ==> SizeOf(l, t[i]) >= SizeOf(l, t[i + 1])
    ensures var s := [b] + t;
            && Tiles(l, s, b.0, l.end)
            && forall i :: 0 <= i < |s| - 1 ==> SizeOf(l, s[i]) >= SizeOf(l, s[i + 1])
  {
    hide SizeOf;
    var s := [b] + t;
    assert forall i :: 1 <= i < |s| ==> s[i] == t[i - 1];
  }

  // How many blocks there are.

  /** The distance that remains after k blocks. */
  function Remaining(l: Loop, r: nat, k: nat): (s: nat)
    requires Proper(l)
    ensures s <= r
  {
    AfterBelow(l, r);
    if k == 0 then r else Remaining(l, After(l, r), k - 1)
  }

  lemma {:induction false} RemainingNext(l: Loop, r: nat, k: nat)
    requires Proper(l)
    ensures Remaining(l, r, k + 1) == After(l, Remaining(l, r, k))
  {
    AfterBelow(l, r);
    if k > 0 {
      RemainingNext(l, After(l, r), k - 1);
    }
  }

  /** As long as more than half remains, every block takes its share of at least half. */
  lemma {:induction false} TowardsHalf(l: Loop, r: nat, k: nat)
    requires Proper(l)
    ensures var n, m := Steps(l, r), Steps(l, Remaining(l, r, k));
            0 <= m && (2 * m <= n || 2 * l.nthreads * m <= 2 * l.nthreads * n - k * n)
  {
    hide Quota;
    var n := Steps(l, r);
    DivMonotone(0, r, Width(l));
    if k > 0 {
      TowardsHalf(l, r, k - 1);
      RemainingNext(l, r, k - 1);
      var s := Remaining(l, r, k - 1);
      AfterBelow(l, s);
      TakesShare(l.nthreads, n, Steps(l, s), Steps(l, After(l, s)), Quota(l, Steps(l, s)), k);
    }
  }

  lemma TakesShare(t: nat, n: nat, m: nat, m1: nat, q: nat, k: nat)
    requires k > 0 && t > 0 && q * t >= m && m1 == (if q <= m then m - q else 0)
    requires 2 * m <= n || 2 * t * m <= 2 * t * n - (k - 1) * n
    ensures 2 * m1 <= n || 2 * t * m1 <= 2 * t * n - k * n
  {
    if 2 * m > n && q <= m {
      assert 2 * t * m1 == 2 * t * m - 2 * (q * t) by {
        assert 2 * t * (m - q) == 2 * t * m - 2 * t * q;
        assert 2 * t * q == 2 * (q * t);
      }
      assert (k - 1) * n == k * n - n;
    }
  }

  lemma CancelShare(t: nat, n: nat, m: nat)
    requires t > 0 && 2 * t * m <= 2 * t * n - t * n
    ensures 2 * m <= n
  {
    assert 2 * t * m == 2 * m * t && 2 * t * n == 2 * (t * n);
    assert (n + 1) * t == t * n + t;
    if n + 1 <= 2 * m {
      MulMonotone(n + 1, 2 * m, t);
    }
  }

  /** Any nthreads consecutive blocks at least halve the whole steps that remain. */
  lemma Halves(l: Loop, r: nat)
    requires Proper(l)
    ensures 2 * Steps(l, Remaining(l, r, l.nthreads)) <= Steps(l, r)
  {
    TowardsHalf(l, r, l.nthreads);
    DivMonotone(0, r, Width(l));
    var n, m := Steps(l, r), Steps(l, Remaining(l, r, l.nthreads));
    hide Steps, Remaining;
    if 2 * m > n {
      CancelShare(l.nthreads, n, m);
    }
  }

  /** floor(log2 n) + 1. */
  function Bits(n: nat): nat {
    if n == 0 then 0 else 1 + Bits(n / 2)
  }

  lemma {:induction false} BitsMonotone(m: nat, n: nat)
    requires m <= n
    ensures Bits(m) <= Bits(n)
  {
    if m > 0 { BitsMonotone(m / 2, n / 2); }
  }

  /** The first k blocks, then those of what remains. */
  lemma {:induction false} Shorter(l: Loop, x: int, k: nat) returns (y: int)
    requires Proper(l) && l.chunk >= 1 && Left(l, x) >= 0
    ensures Left(l, y) == Remaining(l, Left(l, x), k) && |Tiling(l, x)| <= k + |Tiling(l, y)|
    decreases k
  {
    y := x;
    if k > 0 {
      BlockLeft(l, x);
      AfterBelow(l, Left(l, x));
      if x == l.end {
        RemainingZero(l, k);
      } else {
        y := Shorter(l, BlockEnd(l, x), k - 1);
      }
    }
  }

  lemma {:induction false} RemainingZero(l: Loop, k: nat)
    requires Proper(l)
    ensures Remaining(l, 0, k) == 0
  {
    AfterBelow(l, 0);
    if k > 0 { RemainingZero(l, k - 1); }
  }

  /** A loop of n whole steps takes at most nthreads * (floor(log2 n) + 1) + 1 blocks. */
  lemma {:induction false} BlockCount(l: Loop, x: int)
    requires Proper(l) && l.chunk >= 1 && Left(l, x) >= 0
    ensures Steps(l, Left(l, x)) >= 0
    ensures |Tiling(l, x)| <= l.nthreads * Bits(Steps(l, Left(l, x))) + 1
    decreases Left(l, x)
  {
    var r, t := Left(l, x), l.nthreads;
    StepsNonNegative(l, r);
    hide Left, Steps, Tiling, Remaining, Width;
    var n := Steps(l, r);
    if n == 0 {
      AtMostOne(l, x);
      MulNonNegative(t, Bits(n));
    } else {
      var y := Shorter(l, x, t);
      Halves(l, r);
      RemainingLess(l, r, t);
      BlockCount(l, y);
      var m := Steps(l, Left(l, y));
      BitsMonotone(m, n / 2);
      OneMoreBit(t, Bits(m), Bits(n / 2), |Tiling(l, x)|, |Tiling(l, y)|);
    }
  }

  lemma StepsNonNegative(l: Loop, r: nat)
    requires Proper(l) && l.chunk >= 1
    ensures Steps(l, r) >= 0 && (Steps(l, r) != 0 ==> r > 0)
  {
    DivMonotone(0, r, Width(l));
    DivUnique(0, Width(l), 0, 0);
  }

  lemma OneMoreBit(t: nat, some: nat, bits: nat, count: nat, rest: nat)
    requires some <= bits && rest <= t * some + 1 && count <= t + rest
    ensures count <= t * (1 + bits) + 1
  {
    MulMonotone(some, bits, t);
    assert t * (1 + bits) == t + t * bits;
  }

  lemma AtMostOne(l: Loop, x: int)
    requires Proper(l) && l.chunk >= 1 && Left(l, x) >= 0 && Steps(l, Left(l, x)) == 0
    ensures |Tiling(l, x)| <= 1
  {
    if x != l.end {
      BlockLeft(l, x);
      AfterBelow(l, Left(l, x));
      assert BlockEnd(l, x) == l.end;
    }
  }

  lemma RemainingLess(l: Loop, r: nat, k: nat)
    requires Proper(l) && l.chunk >= 1 && k > 0 && r > 0
    ensures Remaining(l, r, k) < r
  {
    AfterBelow(l, r);
  }

  // A chunk of zero.

  /** With a chunk of zero every block keeps the distance modulo the step, and a rest shorter than a step is given out
      as an empty block. */
  lemma ZeroChunk(l: Loop, r: nat)
    requires Proper(l) && l.chunk == 0
    ensures 0 <= After(l, r) && After(l, r) % Width(l) == r % Width(l)
    ensures After(l, r) == r <==> r < Width(l)
  {
    DivMonotone(0, r, Width(l));
    AfterBelow(l, r);
    ZeroShare(l, Steps(l, r));
    WholeShare(Width(l), r, Quota(l, Steps(l, r)));
  }

  lemma WholeShare(w: nat, r: nat, q: nat)
    requires w > 0 && q <= r / w && (q == 0 <==> r / w == 0)
    ensures 0 <= r - q * w && (r - q * w) % w == r % w
    ensures r - q * w == r <==> r < w
  {
    var n := r / w;
    assert r == n * w + r % w;
    assert (n - q) * w == n * w - q * w;
    MulMonotone(q, n, w);
    MulMonotone(1, w, q);
    DivUnique(r - q * w, w, n - q, r % w);
    if r < w {
      DivUnique(r, w, 0, r);
    }
  }

  lemma ZeroShare(l: Loop, n: nat)
    requires Proper(l) && l.chunk == 0
    ensures Quota(l, n) <= n && (Quota(l, n) == 0 <==> n == 0)
  {
    var q, t := Quota(l, n), l.nthreads;
    assert q * t <= n + t - 1;
    assert (n + 1) * t == n * t + t && n * t == t * n;
    MulMonotone(1, t, n);
    if q > n {
      MulMonotone(n + 1, q, t);
    }
  }

  /** So a guided loop reaches its end in some number of blocks if and only if its chunk is at least 1 or the step
      divides the distance. */
  lemma ReachesEnd(l: Loop, r: nat)
    requires Proper(l)
    ensures (exists k: nat :: Remaining(l, r, k) == 0) <==> l.chunk >= 1 || r % Width(l) == 0
  {
    hide Remaining, After, Steps;
    if l.chunk >= 1 || r % Width(l) == 0 {
      var k := CountDown(l, r);
    } else {
      forall k: nat ensures Remaining(l, r, k) != 0 {
        KeepsRest(l, r, k);
      }
    }
  }

  lemma {:induction false} CountDown(l: Loop, r: nat) returns (k: nat)
    requires Proper(l) && (l.chunk >= 1 || r % Width(l) == 0)
    ensures Remaining(l, r, k) == 0
    decreases r
  {
    if r == 0 {
      k := 0;
    } else {
      AfterBelow(l, r);
      if l.chunk == 0 {
        ZeroChunk(l, r);
      }
      hide After, Steps;
      var j := CountDown(l, After(l, r));
      k := j + 1;
    }
  }

  lemma {:induction false} KeepsRest(l: Loop, r: nat, k: nat)
    requires Proper(l) && l.chunk == 0
    ensures Remaining(l, r, k) % Width(l) == r % Width(l)
    decreases k
  {
    if k > 0 {
      AfterBelow(l, r);
      ZeroChunk(l, r);
      hide After, Steps, Width;
      KeepsRest(l, After(l, r), k - 1);
    }
  }

  // The compare-and-swap form as steps of a team.

  datatype Local = Idle | Loaded(start: int) | Stopped

  datatype State = State(next: int, log: seq<Block>, locals: seq<Local>)

  datatype Step = Load(t: nat) | TrySwap(t: nat)

  predicate Enabled(s: State, e: Step) {
    e.t < |s.locals| && if e.Load? then s.locals[e.t].Idle? else s.locals[e.t].Loaded?
  }

  /** A load of next, or one round of the loop of gomp_iter_guided_next. */
  function Apply(l: Loop, s: State, e: Step): State
    requires Proper(l) && Enabled(s, e)
  {
    match e {
      case Load(t) => s.(locals := s.locals[t := Loaded(s.next)])
      case TrySwap(t) =>
        var start := s.locals[t].start;
        if start == l.end then s.(locals := s.locals[t := Stopped])
        else
          var nend := ComputedEnd(l, start);
          if s.next == start then
            s.(next := nend, log := s.log + [(start, nend)], locals := s.locals[t := Idle])
          else s.(locals := s.locals[t := Loaded(s.next)])
    }
  }

  ghost predicate Inv(l: Loop, start: int, s: State) {
    && Proper(l) && l.chunk >= 1 && Counted(l, start) && 0 <= Left(l, s.next) <= Left(l, start)
    && s.log + Tiling(l, s.next) == Tiling(l, start)
    && (forall t :: 0 <= t < |s.locals| && s.locals[t].Loaded? ==>
          Left(l, s.next) <= Left(l, s.locals[t].start) <= Left(l, start))
    && (forall t :: 0 <= t < |s.locals| && s.locals[t].Stopped? ==> s.next == l.end)
  }

  lemma StepInv(l: Loop, start: int, s: State, e: Step)
    requires Inv(l, start, s) && Enabled(s, e)
    ensures Inv(l, start, Apply(l, s, e)) && |Apply(l, s, e).locals| == |s.locals|
  {
    if e.TrySwap? && s.locals[e.t].start != l.end && s.locals[e.t].start == s.next {
      var b, rest := (s.next, BlockEnd(l, s.next)), BlockEnd(l, s.next);
      CountedFurther(l, start, s.next);
      ComputedIs(l, s.next);
      BlockLeft(l, s.next);
      AfterBelow(l, Left(l, s.next));
      assert Tiling(l, s.next) == [b] + Tiling(l, rest);
      assert s.log + [b] + Tiling(l, rest) == s.log + ([b] + Tiling(l, rest));
    }
    hide Tiling, BlockEnd, After, Steps, Quota, ComputedEnd;
  }

  ghost predicate Leads(l: Loop, s: State, steps: seq<Step>, r: State)
    requires Proper(l)
    decreases |steps|
  {
    if steps == [] then r == s else Enabled(s, steps[0]) && Leads(l, Apply(l, s, steps[0]), steps[1..], r)
  }

  lemma {:induction false} RunInv(l: Loop, start: int, s: State, steps: seq<Step>, r: State)
    requires Inv(l, start, s) && Leads(l, s, steps, r)
    ensures Inv(l, start, r) && |r.locals| == |s.locals|
    decreases |steps|
  {
    hide Apply, Enabled, Tiling;
    if steps != [] {
      StepInv(l, start, s, steps[0]);
      hide Inv;
      RunInv(l, start, Apply(l, s, steps[0]), steps[1..], r);
    }
  }

  /** In every interleaving the team hands out the blocks of the one tiling in order, and all of them once every thread
      has had its first false. */
  lemma SameTiling(l: Loop, start: int, s: State, steps: seq<Step>, r: State)
    requires Proper(l) && l.chunk >= 1 && Left(l, start) >= 0 && Counted(l, start) && s.next == start && s.log == []
    requires forall t :: 0 <= t < |s.locals| ==> s.locals[t].Idle?
    requires Leads(l, s, steps, r)
    ensures r.log <= Tiling(l, start)
    ensures |r.locals| > 0 && (forall t :: 0 <= t < |r.locals| ==> r.locals[t].Stopped?) ==> r.log == Tiling(l, start)
  {
    RunInv(l, start, s, steps, r);
    hide BlockEnd, Leads;
    if |r.locals| > 0 && forall t :: 0 <= t < |r.locals| ==> r.locals[t].Stopped? {
      assert r.locals[0].Stopped?;
    }
  }

  /** With a step of 1 or -1 the team hands out that tiling in every run if and only if the share of the first block is
      rounded up right. */
  lemma TilingIff(l: Loop, start: int, s: State)
    requires Proper(l) && l.chunk >= 1 && Sized(l, start) && Left(l, start) >= 0 && Width(l) == 1
    requires s.next == start && s.log == [] && |s.locals| > 0 && forall t :: 0 <= t < |s.locals| ==> s.locals[t].Idle?
    ensures (forall steps: seq<Step>, r: State :: Leads(l, s, steps, r) ==> r.log <= Tiling(l, start)) <==> RoundsUp(l, start)
  {
    hide Leads, BlockEnd, ComputedEnd, RoundsUp;
    ComputedIff(l, start);
    if RoundsUp(l, start) {
      forall steps: seq<Step>, r: State | Leads(l, s, steps, r) ensures r.log <= Tiling(l, start) {
        SameTiling(l, start, s, steps, r);
      }
    } else {
      EndRoundsUp(l, start);
      var steps, r := FirstCall(l, start, s);
      assert !(r.log <= Tiling(l, start)) by {
        assert r.log[0] == (start, ComputedEnd(l, start)) && Tiling(l, start)[0] == (start, BlockEnd(l, start));
      }
    }
  }

  lemma EndRoundsUp(l: Loop, x: int)
    requires Proper(l) && Sized(l, x) && !RoundsUp(l, x)
    ensures x != l.end
  {
  }

  /** One thread calls, and nobody comes between. */
  lemma FirstCall(l: Loop, start: int, s: State) returns (steps: seq<Step>, r: State)
    requires Proper(l) && start != l.end && s.next == start && s.log == [] && |s.locals| > 0 && s.locals[0].Idle?
    ensures Leads(l, s, steps, r) && r.log == [(start, ComputedEnd(l, start))]
  {
    hide ComputedEnd;
    var s1 := Apply(l, s, Load(0));
    assert Enabled(s1, TrySwap(0));
    r := Apply(l, s1, TrySwap(0));
    steps := [Load(0), TrySwap(0)];
    assert [TrySwap(0)][1..] == [];
    assert Leads(l, s1, [TrySwap(0)], r);
    assert steps[1..] == [TrySwap(0)];
  }

  // The routines of iter.c.

  datatype Result = Nothing | Some(block: Block)

  class Share {
    const loop: Loop
    var next: int

    constructor (start: int, l: Loop)
      ensures loop == l && next == start
    {
      loop, next := l, start;
    }

    /** gomp_iter_guided_next_locked. */
    method NextLocked() returns (r: Result)
      requires Proper(loop)
      modifies this`next
      ensures old(next) == loop.end ==> r == Nothing && next == old(next)
      ensures old(next) != loop.end ==> r == Some((old(next), next)) && next == ComputedEnd(loop, old(next))
      ensures Left(loop, old(next)) > 0 && Counted(loop, old(next)) ==> next == BlockEnd(loop, old(next)) && Fair(loop, (old(next), next))
    {
      if next == loop.end {
        return Nothing;
      }
      var start := next;
      if Left(loop, start) > 0 && Counted(loop, start) {
        ComputedIs(loop, start);
        FairBlock(loop, start);
      }
      hide Fair, BlockEnd, StepCount, Counted, Wrap;
      var n := StepCount(loop.end - start, loop.incr);
      var q := (n + loop.nthreads - 1) % TWO64 / loop.nthreads;
      if q < loop.chunk {
        q := loop.chunk;
      }
      var end: int;
      if q <= n {
        end := Wrap(start + q * loop.incr);
      } else {
        end := loop.end;
      }
      next := end;
      return Some((start, end));
    }

    /** The other threads of the team allocate any number of blocks, or none. */
    method Interfere()
      requires Left(loop, next) >= 0
      modifies this`next
      ensures 0 <= Left(loop, next) <= Left(loop, old(next))
    {
      var x :| 0 <= Left(loop, x) <= Left(loop, next);
      next := x;
    }

    /** __sync_val_compare_and_swap on next. */
    method CompareAndSwap(expected: int, value: int) returns (seen: int)
      modifies this`next
      ensures seen == old(next) && next == if seen == expected then value else seen
    {
      seen := next;
      if seen == expected {
        next := value;
      }
    }

    /** gomp_iter_guided_next: the block returned is the one that starts where next was when the swap succeeded. */
    method NextSwap() returns (r: Result)
      requires Proper(loop) && loop.chunk >= 1 && Left(loop, next) >= 0 && Counted(loop, next)
      modifies this`next
      ensures 0 <= Left(loop, next) <= Left(loop, old(next))
      ensures r.Nothing? ==> next == loop.end
      ensures r.Some? ==> next == r.block.1 == BlockEnd(loop, r.block.0) && Fair(loop, r.block)
      ensures r.Some? ==> Left(loop, next) < Left(loop, r.block.0) <= Left(loop, old(next))
    {
      hide Quotient, After, StepCount, Wrap, BlockEnd, Counted, Fair;
      var start := next;
      while true
        invariant 0 <= Left(loop, next) <= Left(loop, start) <= Left(loop, old(next))
        decreases Left(loop, start)
      {
        if start == loop.end {
          return Nothing;
        }
        CountedFurther(loop, old(next), start);
        ComputedIs(loop, start);
        var n := StepCount(loop.end - start, loop.incr);
        var q := (n + loop.nthreads - 1) % TWO64 / loop.nthreads;
        if q < loop.chunk {
          q := loop.chunk;
        }
        var nend: int;
        if q <= n {
          nend := Wrap(start + q * loop.incr);
        } else {
          nend := loop.end;
        }
        FairBlock(loop, start);
        BlockLeft(loop, start);
        AfterBelow(loop, Left(loop, start));
        Interfere();
        var tmp := CompareAndSwap(start, nend);
        if tmp == start {
          return Some((start, nend));
        }
        start := tmp;
      }
    }
  }
}
