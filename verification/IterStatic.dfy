/** Static loop scheduling: the blocks that each thread computes for itself. */
module IterStatic {
  import opened Arithmetic
  import opened Longs

  /** The fields that the allocator reads, and the number of threads of the team. */
  datatype Loop = Loop(next: int, end: int, incr: int, chunk: nat, nthreads: nat)

  predicate Proper(l: Loop) {
    && IsLong(l.next) && IsLong(l.end) && IsLong(l.incr) && l.incr != 0 && l.nthreads > 0
    && (if l.incr > 0 then l.next <= l.end else l.next >= l.end)
  }

  /** The difference that the code divides. */
  function Span(l: Loop): int {
    l.end - l.next + (l.incr + if l.incr > 0 then -1 else 1)
  }

  /** The number of iterations, as the code computes it. */
  function Count(l: Loop): nat
    requires Proper(l)
  {
    StepCount(Span(l), l.incr)
  }

  /** Iteration k comes before the end. */
  predicate Before(l: Loop, k: nat) {
    if l.incr > 0 then k * l.incr + l.next < l.end else k * l.incr + l.next > l.end
  }

  function Iterations(l: Loop): nat
    requires Proper(l)
  {
    CeilingCount(Abs(l.end - l.next), Abs(l.incr), 0);
    (Abs(l.end - l.next) + Abs(l.incr) - 1) / Abs(l.incr)
  }

  lemma IterationsAre(l: Loop, k: nat)
    requires Proper(l)
    ensures k < Iterations(l) <==> Before(l, k)
  {
    var d, w := Abs(l.end - l.next), Abs(l.incr);
    CeilingCount(d, w, k);
    assert k * l.incr == if l.incr > 0 then k * w else -(k * w);
  }

  /** No sum leaves the longs, or the step is 1 or -1. */
  predicate CountFits(l: Loop) {
    IsLong(Span(l)) || Abs(l.incr) == 1
  }

  lemma CountIff(l: Loop)
    requires Proper(l)
    ensures Count(l) == Iterations(l) <==> CountFits(l)
  {
    hide StepCount;
    if Abs(l.end - l.next) == 0 {
      DivUnique(Abs(l.incr) - 1, Abs(l.incr), 0, Abs(l.incr) - 1);
    }
    assert Abs(Span(l)) == Abs(l.end - l.next) + Abs(l.incr) - 1;
    StepCountIff(Span(l), l.incr);
  }

  /** The number of iterations is right if and only if no sum leaves the longs or the step is 1 or -1. */
  lemma CountIsIterations(l: Loop)
    requires Proper(l)
    ensures (forall k: nat :: k < Count(l) <==> Before(l, k)) <==> CountFits(l)
  {
    hide StepCount, CountFits, Before, Count, Iterations;
    CountIff(l);
    forall k: nat ensures k < Iterations(l) <==> Before(l, k) {
      IterationsAre(l, k);
    }
    if !CountFits(l) {
      var k := if Count(l) < Iterations(l) then Count(l) else Iterations(l);
      assert !(k < Count(l) <==> Before(l, k));
    }
  }

  /** The loop variable of every iteration is computed without wrap-around. */
  lemma PointIsLong(l: Loop, k: nat)
    requires Proper(l) && Before(l, k)
    ensures Wrap(k * l.incr + l.next) == k * l.incr + l.next
  {
    if l.incr > 0 { MulNonNegative(k, l.incr); } else { MulNonNegative(k, -l.incr); assert k * -l.incr == -(k * l.incr); }
  }

  lemma CeilingCount(d: nat, w: nat, k: nat)
    requires w > 0
    ensures (d + w - 1) / w >= 0
    ensures k < (d + w - 1) / w <==> k * w < d
  {
    var n, r := (d + w - 1) / w, (d + w - 1) % w;
    assert d + w - 1 == n * w + r;
    DivMonotone(0, d + w - 1, w);
    assert (k + 1) * w == k * w + w && (n + 1) * w == n * w + w;
    if k < n { MulMonotone(k + 1, n, w); } else { MulMonotone(n, k, w); }
  }

  /** What a call returns: the return value, the new static_trip and, with 0, the bounds as iteration numbers. A team of
      one thread takes the loop whole. */
  datatype Outcome = Outcome(ret: int, trip: int, s0: int, e0: int)

  /** The two schedules of gomp_iter_static_next for a team of several threads, in 64-bit unsigned arithmetic. */
  function StaticNext(n: nat, nthreads: nat, chunk: nat, id: nat, trip: int): Outcome
    requires nthreads > 1 && id < nthreads && trip >= -1
  {
    if trip == -1 then Outcome(-1, -1, 0, 0)
    else if chunk == 0 then
      if trip > 0 then Outcome(1, trip, 0, 0)
      else
        var q := n / nthreads + if id < n % nthreads then 1 else 0;
        var t := if id < n % nthreads then 0 else n % nthreads;
        var s0 := q * id + t;
        var e0 := s0 + q;
        if s0 >= e0 then Outcome(1, 1, 0, 0)
        else Outcome(0, if e0 == n then -1 else 1, s0, e0)
    else
      var s0 := (trip * nthreads + id) * chunk % TWO64;
      var e0 := (s0 + chunk) % TWO64;
      if s0 >= n then Outcome(1, trip, 0, 0)
      else
        var e := if e0 > n then n else e0;
        Outcome(0, if e == n then -1 else trip + 1, s0, e)
  }

  // The chunked schedule: block k is the k-th run of chunk iterations.

  function BlockStart(chunk: nat, k: nat): nat {
    MulNonNegative(k, chunk);
    k * chunk
  }

  function BlockStop(n: nat, chunk: nat, k: nat): nat {
    if BlockStart(chunk, k) + chunk > n then n else BlockStart(chunk, k) + chunk
  }

  /** The number of blocks. */
  function Blocks(n: nat, chunk: nat): nat
    requires chunk > 0
  {
    (n + chunk - 1) / chunk
  }

  lemma BlocksAre(n: nat, chunk: nat, k: nat)
    requires chunk > 0
    ensures k < Blocks(n, chunk) <==> BlockStart(chunk, k) < n
    ensures k + 1 == Blocks(n, chunk) <==> BlockStart(chunk, k) < n && BlockStop(n, chunk, k) == n
  {
    CeilingCount(n, chunk, k);
    CeilingCount(n, chunk, k + 1);
    assert (k + 1) * chunk == k * chunk + chunk;
  }

  /** The number of iterations is an unsigned long, and the chunk a long, in a team of several threads. */
  predicate Sized(n: nat, nthreads: nat, chunk: nat) {
    n < TWO64 && 0 < chunk <= LONG_MAX && nthreads > 1
  }

  /** The start computed for block k does not wrap into the loop. */
  predicate Beyond(n: nat, chunk: nat, k: nat) {
    BlockStart(chunk, k) % TWO64 >= n
  }

  /** No start beyond the last block that a thread still computes, on the way to its false, wraps into the loop. */
  ghost predicate NoSurplus(n: nat, nthreads: nat, chunk: nat)
    requires chunk > 0
  {
    forall k: nat :: Blocks(n, chunk) <= k < Blocks(n, chunk) + nthreads - 1 ==> Beyond(n, chunk, k)
  }

  /** A trip in terms of the start that it computes. */
  lemma CallFrom(n: nat, nthreads: nat, chunk: nat, i: nat, j: nat, m: nat)
    requires Sized(n, nthreads, chunk) && i < nthreads && m == (j * nthreads + i) * chunk
    ensures var o, s := StaticNext(n, nthreads, chunk, i, j), m % TWO64;
            var e := (s + chunk) % TWO64;
            o == if s >= n then Outcome(1, j, 0, 0) else if e >= n then Outcome(0, -1, s, n) else Outcome(0, j + 1, s, e)
  {
  }

  /** Without surplus starts the sum at the end of the last block does not wrap either. */
  lemma NoCarry(n: nat, nthreads: nat, chunk: nat, k: nat)
    requires Sized(n, nthreads, chunk) && NoSurplus(n, nthreads, chunk) && k < Blocks(n, chunk)
    ensures BlockStart(chunk, k) + chunk < TWO64
  {
    hide Blocks, BlockStart, Beyond;
    if BlockStart(chunk, k) + chunk >= TWO64 {
      CarryIsSurplus(n, nthreads, chunk, k);
    }
  }

  /** If the sum at the end of a block wraps, the next block starts inside the loop. */
  lemma CarryIsSurplus(n: nat, nthreads: nat, chunk: nat, k: nat)
    requires Sized(n, nthreads, chunk) && k < Blocks(n, chunk) && BlockStart(chunk, k) + chunk >= TWO64
    ensures k + 1 == Blocks(n, chunk) && !Beyond(n, chunk, k + 1)
  {
    BlocksAre(n, chunk, k);
    BlocksAre(n, chunk, k + 1);
    StartIs(chunk, k);
    StartIs(chunk, k + 1);
    hide Blocks, BlockStart;
    assert BlockStart(chunk, k + 1) == BlockStart(chunk, k) + chunk;
    MulMonotone(1, k, chunk);
    DivUnique(BlockStart(chunk, k + 1), TWO64, 1, BlockStart(chunk, k + 1) - TWO64);
  }

  /** A trip in terms of the block it asks for. */
  lemma CallIs(n: nat, nthreads: nat, chunk: nat, i: nat, j: nat, k: nat)
    requires Sized(n, nthreads, chunk) && i < nthreads && k == j * nthreads + i
    ensures var o, s := StaticNext(n, nthreads, chunk, i, j), BlockStart(chunk, k) % TWO64;
            if s >= n then o == Outcome(1, j, 0, 0)
            else o.ret == 0 && o.s0 == s && 0 <= o.e0 <= n && (o.trip == -1 <==> o.e0 == n) && (s + chunk < TWO64 ==> s < o.e0)
    ensures k < Blocks(n, chunk) && BlockStart(chunk, k) + chunk < TWO64 ==>
              var o := StaticNext(n, nthreads, chunk, i, j);
              o == Outcome(0, if k + 1 == Blocks(n, chunk) then -1 else j + 1, BlockStart(chunk, k), BlockStop(n, chunk, k))
  {
    hide StaticNext, Blocks;
    BlocksAre(n, chunk, k);
    StartIs(chunk, k);
    CallFrom(n, nthreads, chunk, i, j, BlockStart(chunk, k));
    hide BlockStart;
    var s := BlockStart(chunk, k) % TWO64;
    if s + chunk < TWO64 { SmallMod(s + chunk); }
    if k < Blocks(n, chunk) { SmallMod(BlockStart(chunk, k)); }
  }

  lemma StartIs(chunk: nat, k: nat)
    ensures BlockStart(chunk, k) == k * chunk
  {
  }

  lemma BlockIndex(nthreads: nat, i: nat, j: nat)
    ensures 0 <= j * nthreads + i && (j > 0 ==> (j - 1) * nthreads + i == j * nthreads + i - nthreads)
    ensures j > 0 ==> (j - 1) * nthreads + i >= 0
  {
    MulNonNegative(j, nthreads);
    if j > 0 { MulNonNegative(j - 1, nthreads); }
  }

  /** On trip j thread i gets block j * nthreads + i, and -1 is stored with the last block of all. */
  lemma ChunkedCall(n: nat, nthreads: nat, chunk: nat, i: nat, j: nat)
    requires Sized(n, nthreads, chunk) && i < nthreads && NoSurplus(n, nthreads, chunk)
    requires j == 0 || (j - 1) * nthreads + i + 1 < Blocks(n, chunk)
    ensures j * nthreads + i >= 0
    ensures var k := j * nthreads + i;
            StaticNext(n, nthreads, chunk, i, j) ==
            if k < Blocks(n, chunk) then
              Outcome(0, if k + 1 == Blocks(n, chunk) then -1 else j + 1, BlockStart(chunk, k), BlockStop(n, chunk, k))
            else Outcome(1, j, 0, 0)
  {
    BlockIndex(nthreads, i, j);
    var k := j * nthreads + i;
    BlocksAre(n, chunk, 0);
    if k < Blocks(n, chunk) { NoCarry(n, nthreads, chunk, k); }
    CallIs(n, nthreads, chunk, i, j, k);
    hide Blocks, StaticNext, BlockStart, BlockStop;
    assert Blocks(n, chunk) <= k && n > 0 ==> Beyond(n, chunk, k);
  }

  /** The blocks a thread gets, from a trip on. */
  ghost function ThreadBlocks(n: nat, nthreads: nat, chunk: nat, i: nat, trip: int): seq<(int, int)>
    requires Sized(n, nthreads, chunk) && i < nthreads && NoSurplus(n, nthreads, chunk)
    requires trip >= 0 ==> trip == 0 || (trip - 1) * nthreads + i + 1 < Blocks(n, chunk)
    requires trip >= -1
    decreases if trip < 0 then 0 else Blocks(n, chunk) + nthreads - trip
  {
    if trip < 0 then []
    else
      ChunkedCall(n, nthreads, chunk, i, trip);
      var o := StaticNext(n, nthreads, chunk, i, trip);
      TripBelow(n, nthreads, chunk, i, trip);
      if o.ret != 0 then [] else [(o.s0, o.e0)] + ThreadBlocks(n, nthreads, chunk, i, o.trip)
  }

  lemma TripBelow(n: nat, nthreads: nat, chunk: nat, i: nat, trip: nat)
    requires nthreads > 1 && chunk > 0 && (trip == 0 || (trip - 1) * nthreads + i + 1 < Blocks(n, chunk))
    ensures trip <= Blocks(n, chunk)
  {
    if trip > 0 {
      MulMonotone(1, nthreads, trip - 1);
    }
  }

  lemma ThreadNext(n: nat, nthreads: nat, chunk: nat, i: nat, trip: nat)
    requires Sized(n, nthreads, chunk) && i < nthreads && NoSurplus(n, nthreads, chunk)
    requires trip == 0 || (trip - 1) * nthreads + i + 1 < Blocks(n, chunk)
    ensures var k, s := trip * nthreads + i, ThreadBlocks(n, nthreads, chunk, i, trip);
            && k >= 0
            && (k >= Blocks(n, chunk) ==> s == [])
            && (k + 1 == Blocks(n, chunk) ==> s == [(BlockStart(chunk, k), BlockStop(n, chunk, k))])
            && (k + 1 < Blocks(n, chunk) ==>
                  s == [(BlockStart(chunk, k), BlockStop(n, chunk, k))] + ThreadBlocks(n, nthreads, chunk, i, trip + 1))
  {
    hide StaticNext, Blocks, NoSurplus, BlockStart, BlockStop;
    ChunkedCall(n, nthreads, chunk, i, trip);
  }

  lemma IndexLater(nthreads: nat, i: nat, trip: nat, j: nat)
    ensures 0 <= trip * nthreads + i <= (trip + j) * nthreads + i
    ensures j > 0 ==> trip * nthreads + i + nthreads <= (trip + j) * nthreads + i
  {
    MulNonNegative(trip, nthreads);
    MulMonotone(trip, trip + j, nthreads);
    assert (trip + 1) * nthreads == trip * nthreads + nthreads;
    if j > 0 { MulMonotone(trip + 1, trip + j, nthreads); }
  }

  /** Thread i gets exactly the blocks congruent to i, in increasing order. */
  lemma {:induction false} ThreadGets(n: nat, nthreads: nat, chunk: nat, i: nat, trip: nat, j: nat)
    requires Sized(n, nthreads, chunk) && i < nthreads && NoSurplus(n, nthreads, chunk)
    requires trip == 0 || (trip - 1) * nthreads + i + 1 < Blocks(n, chunk)
    ensures (trip + j) * nthreads + i >= 0
    ensures var s, k := ThreadBlocks(n, nthreads, chunk, i, trip), (trip + j) * nthreads + i;
            if k < Blocks(n, chunk) then j < |s| && s[j] == (BlockStart(chunk, k), BlockStop(n, chunk, k)) else |s| <= j
    decreases j
  {
    hide StaticNext, Blocks, NoSurplus, BlockStart, BlockStop, ThreadBlocks;
    ThreadNext(n, nthreads, chunk, i, trip);
    IndexLater(nthreads, i, trip, j);
    if j > 0 && trip * nthreads + i + 1 < Blocks(n, chunk) {
      ThreadGets(n, nthreads, chunk, i, trip + 1, j - 1);
      assert trip + 1 + (j - 1) == trip + j;
    }
  }

  predicate Contains(b: (int, int), x: int) {
    b.0 <= x < b.1
  }

  lemma BlockOf(n: nat, chunk: nat, x: nat, k: nat)
    requires chunk > 0 && x < n
    ensures BlockStart(chunk, k) <= x < BlockStop(n, chunk, k) <==> k == x / chunk
    ensures x / chunk < Blocks(n, chunk)
  {
    assert x == x / chunk * chunk + x % chunk;
    BlocksAre(n, chunk, x / chunk);
    if BlockStart(chunk, k) <= x < BlockStop(n, chunk, k) {
      DivUnique(x, chunk, k, x - k * chunk);
    }
  }

  // The unchunked schedule: one block per thread.

  function Cut(n: nat, nthreads: nat, i: nat): (c: nat)
    requires nthreads > 0
  {
    MulNonNegative(n / nthreads, i);
    n / nthreads * i + if i < n % nthreads then i else n % nthreads
  }

  /** Thread i gets the iterations between two consecutive cuts, and -1 is stored by the thread that ends the loop. */
  lemma UnchunkedCall(n: nat, nthreads: nat, i: nat)
    requires nthreads > 1 && i < nthreads
    ensures var a, b := Cut(n, nthreads, i), Cut(n, nthreads, i + 1);
            && a <= b
            && StaticNext(n, nthreads, 0, i, 0) ==
               if a < b then Outcome(0, if b == n then -1 else 1, a, b) else Outcome(1, 1, 0, 0)
    ensures StaticNext(n, nthreads, 0, i, 1) == Outcome(1, 1, 0, 0)
  {
    var q := n / nthreads;
    assert q * (i + 1) == q * i + q;
    assert (q + 1) * i == q * i + i;
  }

  /** The cuts run from 0 to n, and two blocks differ by at most one iteration. */
  lemma CutsTile(n: nat, nthreads: nat, i: nat, j: nat)
    requires nthreads > 0 && i < nthreads && j < nthreads
    ensures Cut(n, nthreads, 0) == 0 && Cut(n, nthreads, nthreads) == n
    ensures Cut(n, nthreads, i + 1) - Cut(n, nthreads, i) <= Cut(n, nthreads, j + 1) - Cut(n, nthreads, j) + 1
  {
    var q := n / nthreads;
    assert n == q * nthreads + n % nthreads;
    assert q * (i + 1) == q * i + q && q * (j + 1) == q * j + q;
  }

  /** How many iterations thread i is given. */
  function Given(n: nat, nthreads: nat, i: nat): int
    requires nthreads > 1 && i < nthreads
  {
    var o := StaticNext(n, nthreads, 0, i, 0);
    if o.ret == 0 then o.e0 - o.s0 else 0
  }

  /** The extra iterations go to the first threads: an earlier thread is given as many as a later one, or one more. */
  lemma EarlierMore(n: nat, nthreads: nat, i: nat, j: nat)
    requires nthreads > 1 && i < j < nthreads
    ensures Given(n, nthreads, j) <= Given(n, nthreads, i) <= Given(n, nthreads, j) + 1
  {
    UnchunkedCall(n, nthreads, i);
    UnchunkedCall(n, nthreads, j);
    hide StaticNext;
    var q := n / nthreads;
    assert q * (i + 1) == q * i + q && q * (j + 1) == q * j + q;
  }

  function SizeAt(c: seq<int>, i: nat): int
    requires i + 1 < |c|
  {
    c[i + 1] - c[i]
  }

  /** Cuts from 0 to n between which an earlier block has as many iterations as a later one, or one more. */
  ghost predicate Balanced(n: nat, nthreads: nat, c: seq<int>) {
    && |c| == nthreads + 1 && c[0] == 0 && c[nthreads] == n
    && (forall i: nat, j: nat :: i < j < nthreads ==> SizeAt(c, j) <= SizeAt(c, i) <= SizeAt(c, j) + 1)
  }

  /** There is only one such sequence. */
  lemma {:induction false} BalancedOnce(n: nat, nthreads: nat, c: seq<int>, d: seq<int>, i: nat)
    requires Balanced(n, nthreads, c) && Balanced(n, nthreads, d) && i <= nthreads
    ensures c[i] == d[i]
    decreases i
  {
    if i > 0 {
      BalancedOnce(n, nthreads, c, d, i - 1);
      if c[i] > d[i] {
        StaysAbove(n, nthreads, c, d, i - 1, nthreads);
      } else if c[i] < d[i] {
        StaysAbove(n, nthreads, d, c, i - 1, nthreads);
      }
    }
  }

  lemma {:induction false} StaysAbove(n: nat, nthreads: nat, c: seq<int>, d: seq<int>, i: nat, k: nat)
    requires Balanced(n, nthreads, c) && Balanced(n, nthreads, d) && i < k <= nthreads && c[i] == d[i] && c[i + 1] > d[i + 1]
    ensures c[k] > d[k]
    decreases k
  {
    if k > i + 1 {
      StaysAbove(n, nthreads, c, d, i, k - 1);
      assert SizeAt(c, i) <= SizeAt(c, k - 1) + 1 && SizeAt(d, k - 1) <= SizeAt(d, i);
    }
  }

  /** So the unchunked schedule is the only one that hands out 0 .. n in order with the larger blocks first. */
  lemma OneSchedule(n: nat, nthreads: nat, c: seq<int>, i: nat)
    requires nthreads > 1 && Balanced(n, nthreads, c) && i < nthreads
    ensures StaticNext(n, nthreads, 0, i, 0) ==
            if c[i] < c[i + 1] then Outcome(0, if c[i + 1] == n then -1 else 1, c[i], c[i + 1]) else Outcome(1, 1, 0, 0)
  {
    var d := seq(nthreads + 1, k requires 0 <= k <= nthreads => Cut(n, nthreads, k));
    CutsBalanced(n, nthreads, d);
    BalancedOnce(n, nthreads, c, d, i);
    BalancedOnce(n, nthreads, c, d, i + 1);
    UnchunkedCall(n, nthreads, i);
    hide Cut, StaticNext;
  }

  lemma CutsBalanced(n: nat, nthreads: nat, d: seq<int>)
    requires nthreads > 1 && |d| == nthreads + 1 && forall k :: 0 <= k <= nthreads ==> d[k] == Cut(n, nthreads, k)
    ensures Balanced(n, nthreads, d)
  {
    hide Cut, StaticNext;
    CutsTile(n, nthreads, 0, 0);
    forall i: nat, j: nat | i < j < nthreads ensures SizeAt(d, j) <= SizeAt(d, i) <= SizeAt(d, j) + 1 {
      EarlierMore(n, nthreads, i, j);
      UnchunkedCall(n, nthreads, i);
      UnchunkedCall(n, nthreads, j);
    }
  }

  lemma {:induction false} CutMonotone(n: nat, nthreads: nat, i: nat, j: nat)
    requires nthreads > 0 && i <= j
    ensures Cut(n, nthreads, i) <= Cut(n, nthreads, j)
  {
    MulMonotone(i, j, n / nthreads);
  }

  /** The unchunked blocks cover every iteration exactly once. */
  lemma UnchunkedOnce(n: nat, nthreads: nat, x: nat) returns (i: nat)
    requires nthreads > 1 && x < n
    ensures i < nthreads
    ensures forall u :: 0 <= u < nthreads ==>
              (var o := StaticNext(n, nthreads, 0, u, 0); o.ret == 0 && Contains((o.s0, o.e0), x) <==> u == i)
  {
    CutsTile(n, nthreads, 0, 0);
    i := 0;
    while Cut(n, nthreads, i + 1) <= x
      invariant i < nthreads && Cut(n, nthreads, i) <= x
      decreases nthreads - i
    {
      hide Cut;
      i := i + 1;
    }
    forall u | 0 <= u < nthreads ensures
      (var o := StaticNext(n, nthreads, 0, u, 0); o.ret == 0 && Contains((o.s0, o.e0), x) <==> u == i)
    {
      UnchunkedCall(n, nthreads, u);
      if u < i { CutMonotone(n, nthreads, u + 1, i); } else if u > i { CutMonotone(n, nthreads, i + 1, u); }
      hide StaticNext, Cut;
    }
  }

  /** A thread of the team: gomp_iter_static_next updates its trip. */
  class Thread {
    const id: nat
    var staticTrip: int

    /** gomp_loop_static_start. */
    constructor (i: nat)
      ensures id == i && staticTrip == 0
    {
      id := i;
      staticTrip := 0;
    }

    method Next(l: Loop) returns (ret: int, pstart: int, pend: int)
      requires Proper(l) && id < l.nthreads && staticTrip >= -1
      modifies this`staticTrip
      ensures staticTrip >= -1
      ensures l.nthreads == 1 ==>
                if old(staticTrip) == -1 then ret == -1 && staticTrip == -1
                else ret == (if l.next == l.end then 1 else 0) && staticTrip == -1 && pstart == l.next && pend == l.end
      ensures l.nthreads > 1 ==>
                var o := StaticNext(Count(l), l.nthreads, l.chunk, id, old(staticTrip));
                && ret == o.ret && staticTrip == o.trip
                && (ret == 0 ==> pstart == Wrap(o.s0 * l.incr + l.next) && pend == Wrap(o.e0 * l.incr + l.next))
    {
      hide StepCount, Wrap;
      pstart, pend := 0, 0;
      if staticTrip == -1 {
        return -1, pstart, pend;
      }
      if l.nthreads == 1 {
        staticTrip := -1;
        return if l.next == l.end then 1 else 0, l.next, l.end;
      }
      var s := l.incr + (if l.incr > 0 then -1 else 1);
      var n := StepCount(l.end - l.next + s, l.incr);
      if l.chunk == 0 {
        if staticTrip > 0 {
          return 1, pstart, pend;
        }
        var q, t := n / l.nthreads, n % l.nthreads;
        if id < t {
          t := 0;
          q := q + 1;
        }
        var s0 := q * id + t;
        var e0 := s0 + q;
        if s0 >= e0 {
          staticTrip := 1;
          return 1, pstart, pend;
        }
        staticTrip := if e0 == n then -1 else 1;
        return 0, Wrap(s0 * l.incr + l.next), Wrap(e0 * l.incr + l.next);
      }
      var s0 := (staticTrip * l.nthreads + id) * l.chunk % TWO64;
      var e0 := (s0 + l.chunk) % TWO64;
      if s0 >= n {
        return 1, pstart, pend;
      }
      if e0 > n {
        e0 := n;
      }
      if e0 == n {
        staticTrip := -1;
      } else {
        staticTrip := staticTrip + 1;
      }
      return 0, Wrap(s0 * l.incr + l.next), Wrap(e0 * l.incr + l.next);
    }
  }
}
