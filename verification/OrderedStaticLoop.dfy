/** The ordered static loop as a whole: what gomp_iter_static_next returns decides where the token goes. */
module OrderedStaticLoop {
  import opened Arithmetic
  import opened Longs
  import opened IterStatic
  import OrderedLoop
  import O = OrderedStatic

  /** The number of blocks that have iterations: one for each thread without a chunk size. */
  function NumBlocks(n: nat, nthreads: nat, chunk: nat): nat {
    if chunk > 0 then Blocks(n, chunk) else if n < nthreads then n else nthreads
  }

  /** Where block k starts, and the one before it ends. */
  function CutAt(n: nat, nthreads: nat, chunk: nat, k: nat): nat
    requires nthreads > 0
  {
    if chunk > 0 then (if BlockStart(chunk, k) > n then n else BlockStart(chunk, k)) else Cut(n, nthreads, k)
  }

  function Cuts(n: nat, nthreads: nat, chunk: nat): (s: seq<nat>)
    requires nthreads > 0
    ensures |s| == NumBlocks(n, nthreads, chunk) + 1
    ensures forall k :: 0 <= k < |s| ==> s[k] == CutAt(n, nthreads, chunk, k)
  {
    seq(NumBlocks(n, nthreads, chunk) + 1, k requires 0 <= k => CutAt(n, nthreads, chunk, k))
  }

  /** The loop has n iterations and the given chunk size, 0 for none. */
  ghost predicate Scheduled(s: O.Team, n: nat, chunk: nat) {
    && O.TeamShape(s) && s.cut == Cuts(n, s.n, chunk) && n < TWO64
    && (chunk > 0 ==> Sized(n, s.n, chunk) && NoSurplus(n, s.n, chunk))
  }

  /** What a thread gets on trip j, which is block j * nthreads + t, and what it stores. */
  lemma Trip(n: nat, nthreads: nat, chunk: nat, t: nat, j: nat)
    requires nthreads > 1 && t < nthreads && n < TWO64
    requires chunk > 0 ==> Sized(n, nthreads, chunk) && NoSurplus(n, nthreads, chunk)
    requires if chunk > 0 then j == 0 || (j - 1) * nthreads + t + 1 < Blocks(n, chunk) else j == 0
    ensures var b, m, o := j * nthreads + t, NumBlocks(n, nthreads, chunk), StaticNext(n, nthreads, chunk, t, j);
            && b >= 0
            && (b < m ==> o == Outcome(0, if b + 1 == m then -1 else j + 1, CutAt(n, nthreads, chunk, b), CutAt(n, nthreads, chunk, b + 1)))
            && (b >= m ==> o.ret == 1)
  {
    BlockIndex(nthreads, t, j);
    var b := j * nthreads + t;
    if chunk > 0 {
      ChunkedCall(n, nthreads, chunk, t, j);
      StopIsCut(n, nthreads, chunk, b);
      hide StaticNext, Blocks, BlockStart, BlockStop, NoSurplus, CutAt;
    } else {
      UnchunkedCall(n, nthreads, t);
      CutStep(n, nthreads, t);
      hide StaticNext, Cut;
    }
  }

  lemma StopIsCut(n: nat, nthreads: nat, chunk: nat, b: nat)
    requires chunk > 0 && nthreads > 0
    ensures b < Blocks(n, chunk) ==>
              CutAt(n, nthreads, chunk, b) == BlockStart(chunk, b) && CutAt(n, nthreads, chunk, b + 1) == BlockStop(n, chunk, b)
  {
    BlocksAre(n, chunk, b);
    StartIs(chunk, b);
    StartIs(chunk, b + 1);
    assert (b + 1) * chunk == b * chunk + chunk;
    hide Blocks, BlockStart;
  }

  /** Without a chunk size the first min(n, nthreads) threads have a block, and the last of them ends the loop. */
  lemma CutStep(n: nat, nthreads: nat, t: nat)
    requires t < nthreads
    ensures Cut(n, nthreads, t) < Cut(n, nthreads, t + 1) <==> t < NumBlocks(n, nthreads, 0)
    ensures t < NumBlocks(n, nthreads, 0) ==> (Cut(n, nthreads, t + 1) == n <==> t + 1 == NumBlocks(n, nthreads, 0))
  {
    if n < nthreads {
      CutFew(n, nthreads, t);
      CutFew(n, nthreads, t + 1);
    } else {
      QuotientBelow(n, nthreads);
      CutNext(n, nthreads, t);
      CutsTile(n, nthreads, t, t);
      if t + 1 < nthreads {
        CutNext(n, nthreads, t + 1);
        CutMonotone(n, nthreads, t + 2, nthreads);
      }
    }
    hide Cut;
  }

  lemma CutFew(n: nat, nthreads: nat, i: nat)
    requires n < nthreads
    ensures Cut(n, nthreads, i) == if i < n then i else n
  {
    DivUnique(n, nthreads, 0, n);
  }

  lemma CutNext(n: nat, nthreads: nat, i: nat)
    requires nthreads > 0 && n / nthreads >= 1
    ensures Cut(n, nthreads, i) < Cut(n, nthreads, i + 1)
  {
    assert n / nthreads * (i + 1) == n / nthreads * i + n / nthreads;
  }

  /** A thread's first call: gomp_loop_ordered_static_start. */
  lemma StartMatches(s: O.Team, n: nat, chunk: nat, t: nat)
    requires Scheduled(s, n, chunk) && O.Can(s, OrderedLoop.Start(t))
    ensures var o := StaticNext(n, s.n, chunk, t, 0);
            && O.After(s, OrderedLoop.Start(t)) == O.SetTo(s, t, if o.ret == 0 then OrderedLoop.Working(t, o.s0) else OrderedLoop.Done)
            && (o.ret == 0 ==> t + 1 < |s.cut| && s.cut[t + 1] == o.e0)
  {
    Trip(n, s.n, chunk, t, 0);
    hide StaticNext, CutAt, NumBlocks, NoSurplus, Sized;
  }

  /** The call after block j * nthreads + t, with the trip that was stored. */
  lemma NextTrip(n: nat, nthreads: nat, chunk: nat, t: nat, j: nat)
    requires nthreads > 1 && t < nthreads && n < TWO64 && (chunk == 0 ==> j == 0)
    requires chunk > 0 ==> Sized(n, nthreads, chunk) && NoSurplus(n, nthreads, chunk)
    requires j * nthreads + t < NumBlocks(n, nthreads, chunk)
    ensures var b, m, o := j * nthreads + t, NumBlocks(n, nthreads, chunk), StaticNext(n, nthreads, chunk, t, j);
            && b >= 0 && o.trip >= -1
            && var x := StaticNext(n, nthreads, chunk, t, o.trip);
            && (b + 1 == m ==> x.ret == -1)
            && (b + 1 < m && b + nthreads >= m ==> x.ret == 1)
            && (b + nthreads < m ==>
                  x.ret == 0 && x.s0 == CutAt(n, nthreads, chunk, b + nthreads) && x.e0 == CutAt(n, nthreads, chunk, b + nthreads + 1))
  {
    hide StaticNext, CutAt, NoSurplus, Sized, Cut, Blocks;
    Earlier(n, nthreads, chunk, t, j);
    BlockIndex(nthreads, t, j);
    Trip(n, nthreads, chunk, t, j);
    if j * nthreads + t + 1 == NumBlocks(n, nthreads, chunk) {
      Over(n, nthreads, chunk, t);
    } else if chunk > 0 {
      NextIndex(nthreads, t, j);
      Trip(n, nthreads, chunk, t, j + 1);
    } else {
      UnchunkedCall(n, nthreads, t);
    }
  }

  lemma NextIndex(nthreads: nat, t: nat, j: nat)
    ensures (j + 1) * nthreads + t == j * nthreads + t + nthreads
  {
  }

  lemma Over(n: nat, nthreads: nat, chunk: nat, t: nat)
    requires nthreads > 1 && t < nthreads
    ensures StaticNext(n, nthreads, chunk, t, -1).ret == -1
  {
  }

  /** The call after block b: gomp_loop_ordered_static_next passes the token on exactly if gomp_iter_static_next returns
      0 or 1, and the thread goes on with the block returned exactly if it returns 0. */
  lemma MoreMatches(s: O.Team, n: nat, chunk: nat, t: nat, j: nat)
    requires Scheduled(s, n, chunk) && O.Can(s, OrderedLoop.More(t)) && s.phase[t].b == j * s.n + t
    requires s.phase[t].b < NumBlocks(n, s.n, chunk) && (chunk == 0 ==> j == 0)
    ensures var b, o := s.phase[t].b, StaticNext(n, s.n, chunk, t, j);
            && o.trip >= -1
            && var x, s1 := StaticNext(n, s.n, chunk, t, o.trip), s.(pos := s.pos + 1);
            && O.After(s, OrderedLoop.More(t))
               == O.SetTo(if x.ret >= 0 then O.PassOn(s1, t) else s1, t,
                          if x.ret == 0 then OrderedLoop.Working(b + s.n, x.s0) else OrderedLoop.Done)
            && (x.ret == 0 ==> b + s.n + 1 < |s.cut| && s.cut[b + s.n + 1] == x.e0)
  {
    NextTrip(n, s.n, chunk, t, j);
    hide StaticNext, CutAt, NoSurplus, Sized, NumBlocks;
  }

  lemma Earlier(n: nat, nthreads: nat, chunk: nat, t: nat, j: nat)
    requires nthreads > 1 && t < nthreads && j * nthreads + t < NumBlocks(n, nthreads, chunk)
    ensures chunk > 0 && j > 0 ==> (j - 1) * nthreads + t + 1 < Blocks(n, chunk)
  {
    if j > 0 { assert (j - 1) * nthreads == j * nthreads - nthreads; }
    hide Blocks;
  }
}
