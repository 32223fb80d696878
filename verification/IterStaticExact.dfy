/** Exactly when the chunked static schedule hands out every iteration once, in 64-bit unsigned arithmetic. */
module IterStaticExact {
  import opened Arithmetic
  import opened IterStatic
  import opened Longs

  /** Thread i goes on after its trip j. */
  predicate Continues(n: nat, nthreads: nat, chunk: nat, i: nat, j: nat)
    requires nthreads > 1 && i < nthreads
  {
    var o := StaticNext(n, nthreads, chunk, i, j);
    o.ret == 0 && o.trip != -1
  }

  ghost predicate Alive(n: nat, nthreads: nat, chunk: nat, i: nat, j: nat)
    requires nthreads > 1 && i < nthreads
  {
    forall v: nat :: v < j ==> Continues(n, nthreads, chunk, i, v)
  }

  /** Thread i is handed iteration x on its trip j. */
  ghost predicate Gets(n: nat, nthreads: nat, chunk: nat, i: nat, j: nat, x: nat)
    requires nthreads > 1
  {
    && i < nthreads && Alive(n, nthreads, chunk, i, j)
    && var o := StaticNext(n, nthreads, chunk, i, j);
    && o.ret == 0 && o.s0 <= x < o.e0
  }

  ghost predicate Once(n: nat, nthreads: nat, chunk: nat, x: nat)
    requires nthreads > 1
  {
    exists i: nat, j: nat :: Gets(n, nthreads, chunk, i, j, x) && Only(n, nthreads, chunk, i, j, x)
  }

  ghost predicate Only(n: nat, nthreads: nat, chunk: nat, i: nat, j: nat, x: nat)
    requires nthreads > 1
  {
    forall u: nat, v: nat :: Gets(n, nthreads, chunk, u, v, x) ==> u == i && v == j
  }

  /** Before its last block a thread goes on. */
  lemma {:induction false} AliveUntil(n: nat, nthreads: nat, chunk: nat, i: nat, j: nat)
    requires Sized(n, nthreads, chunk) && i < nthreads && (j > 0 ==> (j - 1) * nthreads + i + 1 < Blocks(n, chunk))
    ensures Alive(n, nthreads, chunk, i, j)
  {
    hide Blocks, StaticNext, BlockStart, BlockStop;
    if j > 0 {
      BlockIndex(nthreads, i, j);
      BlockIndex(nthreads, i, j - 1);
      EarlierFits(n, chunk, (j - 1) * nthreads + i);
      CallIs(n, nthreads, chunk, i, j - 1, (j - 1) * nthreads + i);
      AliveUntil(n, nthreads, chunk, i, j - 1);
    }
  }

  /** Only the sum at the end of the last block can wrap. */
  lemma EarlierFits(n: nat, chunk: nat, k: nat)
    requires chunk > 0 && k + 1 < Blocks(n, chunk)
    ensures BlockStart(chunk, k) + chunk < n
  {
    BlocksAre(n, chunk, k + 1);
    StartIs(chunk, k);
    StartIs(chunk, k + 1);
    hide Blocks, BlockStart;
    assert (k + 1) * chunk == k * chunk + chunk;
  }

  lemma Split(k: nat, nthreads: nat) returns (i: nat, j: nat)
    requires nthreads > 0
    ensures i == k % nthreads < nthreads && j == k / nthreads && k == j * nthreads + i
  {
    i, j := k % nthreads, k / nthreads;
  }

  lemma GetsOwn(n: nat, nthreads: nat, chunk: nat, x: nat, i: nat, j: nat, k: nat)
    requires Sized(n, nthreads, chunk) && i < nthreads && k == j * nthreads + i && k < Blocks(n, chunk)
    requires BlockStart(chunk, k) <= x < BlockStop(n, chunk, k) && BlockStart(chunk, k) + chunk < TWO64
    ensures Gets(n, nthreads, chunk, i, j, x)
  {
    hide Blocks, StaticNext, BlockStart, BlockStop;
    CallIs(n, nthreads, chunk, i, j, k);
    BlockIndex(nthreads, i, j);
    AliveUntil(n, nthreads, chunk, i, j);
  }

  /** Every iteration is handed out in its own block, if the sum at its end does not wrap. */
  lemma OwnBlock(n: nat, nthreads: nat, chunk: nat, x: nat) returns (i: nat, j: nat)
    requires Sized(n, nthreads, chunk) && x < n && 0 <= x / chunk && BlockStart(chunk, x / chunk) + chunk < TWO64
    ensures i == x / chunk % nthreads && j == x / chunk / nthreads && x / chunk == j * nthreads + i
    ensures Gets(n, nthreads, chunk, i, j, x)
  {
    hide Gets, Blocks, StaticNext, BlockStart, BlockStop;
    BlockOf(n, chunk, x, x / chunk);
    i, j := Split(x / chunk, nthreads);
    GetsOwn(n, nthreads, chunk, x, i, j, x / chunk);
  }

  /** Without surplus blocks a thread gets nothing past the last block. */
  lemma {:induction false} StopsPast(n: nat, nthreads: nat, chunk: nat, i: nat, j: nat)
    requires Sized(n, nthreads, chunk) && i < nthreads && n > 0 && NoSurplus(n, nthreads, chunk)
    requires Alive(n, nthreads, chunk, i, j) && j * nthreads + i >= Blocks(n, chunk)
    ensures StaticNext(n, nthreads, chunk, i, j).ret == 1
  {
    BlocksAre(n, chunk, 0);
    hide Blocks, StaticNext, BlockStop, BlockStart;
    BlockIndex(nthreads, i, j);
    var k := j * nthreads + i;
    CallIs(n, nthreads, chunk, i, j, k);
    if j > 0 {
      var p := (j - 1) * nthreads + i;
      assert Continues(n, nthreads, chunk, i, j - 1);
      if p >= Blocks(n, chunk) {
        StopsPast(n, nthreads, chunk, i, j - 1);
      } else {
        NoCarry(n, nthreads, chunk, p);
        CallIs(n, nthreads, chunk, i, j - 1, p);
      }
    }
    assert k < Blocks(n, chunk) + nthreads - 1 ==> Beyond(n, chunk, k);
  }

  lemma OnlyOwnBlock(n: nat, nthreads: nat, chunk: nat, x: nat, u: nat, v: nat)
    requires Sized(n, nthreads, chunk) && x < n && NoSurplus(n, nthreads, chunk) && Gets(n, nthreads, chunk, u, v, x)
    ensures u == x / chunk % nthreads && v == x / chunk / nthreads
  {
    hide Blocks, StaticNext, BlockStop, BlockStart, NoSurplus, Alive;
    BlockIndex(nthreads, u, v);
    var k := v * nthreads + u;
    if k >= Blocks(n, chunk) {
      StopsPast(n, nthreads, chunk, u, v);
    } else {
      NoCarry(n, nthreads, chunk, k);
    }
    CallIs(n, nthreads, chunk, u, v, k);
    BlockOf(n, chunk, x, k);
    DivUnique(x / chunk, nthreads, v, u);
  }

  /** The start of surplus block k is that of iteration x, and the block goes on from there. */
  predicate SurplusAt(n: nat, nthreads: nat, chunk: nat, k: nat, x: nat)
    requires chunk > 0
  {
    Blocks(n, chunk) <= k < Blocks(n, chunk) + nthreads - 1 && x == BlockStart(chunk, k) % TWO64 < n && x + chunk < TWO64
  }

  lemma GetsSurplus(n: nat, nthreads: nat, chunk: nat, i: nat, j: nat, k: nat, x: nat)
    requires Sized(n, nthreads, chunk) && i < nthreads && k == j * nthreads + i && SurplusAt(n, nthreads, chunk, k, x)
    ensures Gets(n, nthreads, chunk, i, j, x)
  {
    hide Blocks, StaticNext, BlockStart, BlockStop;
    CallIs(n, nthreads, chunk, i, j, k);
    BlockIndex(nthreads, i, j);
    AliveUntil(n, nthreads, chunk, i, j);
  }

  /** A surplus start that wraps into the loop so far back that its block does not wrap again: if the given one is not,
      the first start beyond 2^64 is. */
  lemma EarlySurplus(n: nat, nthreads: nat, chunk: nat, k0: nat) returns (k: nat, x: nat)
    requires Sized(n, nthreads, chunk) && Blocks(n, chunk) <= k0 < Blocks(n, chunk) + nthreads - 1 && !Beyond(n, chunk, k0)
    ensures SurplusAt(n, nthreads, chunk, k, x)
  {
    k, x := k0, BlockStart(chunk, k0) % TWO64;
    if x + chunk >= TWO64 {
      k := FirstWrap(chunk);
      x := BlockStart(chunk, k) - TWO64;
      BlocksAre(n, chunk, k0);
      BlocksAre(n, chunk, k);
      hide Blocks;
      StartIs(chunk, k0);
      if BlockStart(chunk, k0) < TWO64 { SmallMod(BlockStart(chunk, k0)); }
      assert k0 < k ==> k0 * chunk < TWO64;
      DivUnique(BlockStart(chunk, k), TWO64, 1, x);
    }
  }

  lemma FirstWrap(chunk: nat) returns (k: nat)
    requires 0 < chunk <= LONG_MAX
    ensures TWO64 <= BlockStart(chunk, k) < TWO64 + chunk
    ensures forall j: nat :: j < k ==> j * chunk < TWO64
  {
    CeilingCount(TWO64, chunk, 0);
    k := (TWO64 + chunk - 1) / chunk;
    CeilingCount(TWO64, chunk, k);
    CeilingCount(TWO64, chunk, k - 1);
    StartIs(chunk, k);
    assert k * chunk == (k - 1) * chunk + chunk;
    forall j: nat | j < k ensures j * chunk < TWO64 {
      CeilingCount(TWO64, chunk, j);
    }
  }

  /** A surplus block hands an iteration out a second time. */
  lemma SurplusTwice(n: nat, nthreads: nat, chunk: nat, k: nat, x: nat)
    requires Sized(n, nthreads, chunk) && SurplusAt(n, nthreads, chunk, k, x)
    ensures !Once(n, nthreads, chunk, x)
  {
    hide Gets, Blocks, StaticNext, BlockStart, BlockStop;
    BlockOf(n, chunk, x, 0);
    var i, j := Split(k, nthreads);
    GetsSurplus(n, nthreads, chunk, i, j, k, x);
    OwnStart(chunk, x);
    var u, v := OwnBlock(n, nthreads, chunk, x);
    assert x / chunk < k;
  }

  lemma OwnStart(chunk: nat, x: nat)
    requires chunk > 0
    ensures 0 <= x / chunk && BlockStart(chunk, x / chunk) <= x
  {
    assert x == x / chunk * chunk + x % chunk;
    DivMonotone(0, x, chunk);
    StartIs(chunk, x / chunk);
  }

  /** Without surplus starts iteration x is handed out to thread x / chunk mod nthreads on its trip x / chunk / nthreads, and on no
      other occasion. */
  lemma OwnerOf(n: nat, nthreads: nat, chunk: nat, x: nat, i: nat, j: nat)
    requires Sized(n, nthreads, chunk) && NoSurplus(n, nthreads, chunk) && x < n
    ensures Gets(n, nthreads, chunk, i, j, x) <==> i == x / chunk % nthreads && j == x / chunk / nthreads
  {
    hide Gets, Blocks, StaticNext, BlockStart, Beyond;
    BlockOf(n, chunk, x, 0);
    OwnStart(chunk, x);
    NoCarry(n, nthreads, chunk, x / chunk);
    var u, v := OwnBlock(n, nthreads, chunk, x);
    if Gets(n, nthreads, chunk, i, j, x) { OnlyOwnBlock(n, nthreads, chunk, x, i, j); }
  }

  /** The chunked schedule hands out every iteration number exactly once if and only if no surplus start wraps into the loop. */
  lemma ExactlyOnceIff(n: nat, nthreads: nat, chunk: nat)
    requires Sized(n, nthreads, chunk)
    ensures (forall x: nat :: x < n ==> Once(n, nthreads, chunk, x)) <==> NoSurplus(n, nthreads, chunk)
  {
    hide Gets, Blocks, StaticNext, BlockStart, Beyond, SurplusAt;
    if NoSurplus(n, nthreads, chunk) {
      forall x: nat | x < n ensures Once(n, nthreads, chunk, x) {
        BlockOf(n, chunk, x, 0);
        OwnStart(chunk, x);
        NoCarry(n, nthreads, chunk, x / chunk);
        var i, j := OwnBlock(n, nthreads, chunk, x);
        forall u: nat, v: nat | Gets(n, nthreads, chunk, u, v, x) ensures u == i && v == j {
          OnlyOwnBlock(n, nthreads, chunk, x, u, v);
        }
      }
    } else {
      var k0: nat :| Blocks(n, chunk) <= k0 < Blocks(n, chunk) + nthreads - 1 && !Beyond(n, chunk, k0);
      var k, x := EarlySurplus(n, nthreads, chunk, k0);
      SurplusTwice(n, nthreads, chunk, k, x);
      InLoop(n, nthreads, chunk, k, x);
    }
  }

  lemma InLoop(n: nat, nthreads: nat, chunk: nat, k: nat, x: nat)
    requires chunk > 0 && SurplusAt(n, nthreads, chunk, k, x)
    ensures x < n
  {
  }

  /** The unchunked schedule hands out every iteration number exactly once. */
  lemma UnchunkedExactly(n: nat, nthreads: nat, x: nat)
    requires nthreads > 1 && x < n
    ensures Once(n, nthreads, 0, x)
  {
    hide Cut;
    var i := UnchunkedOnce(n, nthreads, x);
    assert Gets(n, nthreads, 0, i, 0, x);
    forall u: nat, v: nat | Gets(n, nthreads, 0, u, v, x) ensures u == i && v == 0 {
      UnchunkedCall(n, nthreads, u);
      hide StaticNext;
      if v > 0 {
        FirstTripOnly(n, nthreads, u, v);
      }
    }
  }

  /** Without a chunk size a thread has one trip. */
  lemma FirstTripOnly(n: nat, nthreads: nat, i: nat, j: nat)
    requires nthreads > 1 && i < nthreads && j > 0
    ensures StaticNext(n, nthreads, 0, i, j).ret == 1
  {
  }

  /** Sums near the end of the loop still fit in 64 bits. */
  predicate Fits(n: nat, nthreads: nat, chunk: nat) {
    n + (nthreads + 1) * chunk < TWO64
  }

  /** It is enough that the sums near the end of the loop fit in 64 bits. */
  lemma FitsIsEnough(n: nat, nthreads: nat, chunk: nat)
    requires Sized(n, nthreads, chunk) && Fits(n, nthreads, chunk)
    ensures NoSurplus(n, nthreads, chunk)
  {
    forall k: nat | Blocks(n, chunk) <= k < Blocks(n, chunk) + nthreads - 1 ensures Beyond(n, chunk, k) {
      StartIn(n, nthreads, chunk, k);
    }
  }

  lemma StartIn(n: nat, nthreads: nat, chunk: nat, k: nat)
    requires Sized(n, nthreads, chunk) && Fits(n, nthreads, chunk)
    requires Blocks(n, chunk) <= k < Blocks(n, chunk) + nthreads - 1
    ensures n <= BlockStart(chunk, k) < TWO64
  {
    BlocksAre(n, chunk, k);
    var m := k - (nthreads - 1);
    if m >= 0 { BlocksAre(n, chunk, m); }
    hide Blocks;
    BoundedStart(n, nthreads - 1, chunk, k);
  }

  lemma BoundedStart(n: nat, a: nat, chunk: nat, k: nat)
    requires k >= a ==> (k - a) * chunk < n
    ensures k * chunk + 2 * chunk <= n + (a + 2) * chunk
  {
    assert (a + 2) * chunk == a * chunk + 2 * chunk;
    if k >= a {
      assert k * chunk == (k - a) * chunk + a * chunk;
    } else {
      MulMonotone(k, a, chunk);
    }
  }

  const CHUNK: nat := 0x4000_0000_0000_0000

  /** Six threads share one iteration in chunks of 2^62: the start for thread 4 wraps to 0. */
  lemma SixThreads()
    ensures Sized(1, 6, CHUNK) && !NoSurplus(1, 6, CHUNK)
  {
    assert Blocks(1, CHUNK) == 1 && !Beyond(1, CHUNK, 4);
  }
}
