/** Whole loops, from the arguments of GOMP_loop_*_start to what the callers' loops go through. */
module LoopRuns {
  import opened Arithmetic
  import opened IterStatic
  import opened IterStaticReturned
  import opened LoopInit
  import opened Longs
  import opened OrderedBlocks
  import D = IterDynamic
  import G = IterGuided

  /** The loop as gomp_loop_init stores it. */
  function Set(start: int, end: int, incr: int, chunk: nat, nthreads: nat): Loop {
    Loop(start, EndOf(start, end, incr), incr, chunk, nthreads)
  }

  /** The blocks follow one another from start, each goes through values of the loop only, and no two through the same one. */
  ghost predicate Disjoint(start: int, end: int, incr: int, bs: seq<Block>) {
    && (bs != [] ==> Ahead(start, end, incr) && bs[0].0 == start)
    && (forall b :: 0 <= b < |bs| - 1 ==> bs[b].1 == bs[b + 1].0)
    && (forall b, x :: 0 <= b < |bs| && Takes(bs[b].0, bs[b].1, incr, x) ==> Takes(start, end, incr, x))
    && (forall b, c, x :: 0 <= b < c < |bs| && Takes(bs[b].0, bs[b].1, incr, x) ==> !Takes(bs[c].0, bs[c].1, incr, x))
  }

  /** And together they are the whole loop. */
  ghost predicate Complete(start: int, end: int, incr: int, bs: seq<Block>) {
    && (bs == [] <==> !Ahead(start, end, incr))
    && (bs != [] ==> bs[|bs| - 1].1 == end)
    && (forall x :: Takes(start, end, incr, x) ==> exists b :: 0 <= b < |bs| && Takes(bs[b].0, bs[b].1, incr, x))
  }

  /** The values of the loop, in terms of what is stored. */
  lemma TakesIs(start: int, end: int, incr: int, chunk: nat, nthreads: nat, x: int)
    requires IsLong(start) && IsLong(end) && IsLong(incr) && incr != 0 && nthreads > 0
    ensures var l := Set(start, end, incr, chunk, nthreads);
            && Proper(l) && (Takes(start, end, incr, x) <==> InLoop(l, x))
            && (Takes(start, end, incr, x) <==> exists k: int :: 0 <= k < Iterations(l) && x == Value(l, k))
            && (Iterations(l) > 0 <==> Ahead(start, end, incr))
  {
    hide Iterations;
    var l := Set(start, end, incr, chunk, nthreads);
    forall k: nat ensures (k < Iterations(l) <==> Before(l, k)) && (Before(l, k) <==> Ahead(Later(start, incr, k), end, incr)) {
      IterationsAre(l, k);
      BeforeIs(start, end, incr, k);
    }
    assert Later(start, incr, 0) == start;
    if m: nat :| x == Later(start, incr, m) && Ahead(x, end, incr) {
      assert Before(l, m) && x == Value(l, m);
    }
    if InLoop(l, x) {
      var k: nat :| Before(l, k) && x == Value(l, k);
      assert x == Later(start, incr, k);
    }
    if k: int :| 0 <= k < Iterations(l) && x == Value(l, k) {
      var j: nat := k;
      assert Before(l, j);
    }
  }

  lemma BeforeIs(start: int, end: int, incr: int, k: nat)
    requires incr != 0
    ensures (if incr > 0 then k * incr + start < EndOf(start, end, incr) else k * incr + start > EndOf(start, end, incr))
            <==> Ahead(Later(start, incr, k), end, incr)
  {
    if incr > 0 { MulNonNegative(k, incr); } else { MulNonNegative(k, -incr); assert k * -incr == -(k * incr); }
  }

  /** Blocks that are cut at iterations go through every value exactly once. */
  lemma SplitsShare(start: int, end: int, incr: int, chunk: nat, nthreads: nat, bs: seq<Block>, cut: seq<nat>, log: seq<Block>)
    requires IsLong(start) && IsLong(end) && IsLong(incr) && incr != 0 && nthreads > 0 && log <= bs
    requires var l := Set(start, end, incr, chunk, nthreads); Proper(l) && Splits(l, 0, bs, cut)
    ensures Disjoint(start, end, incr, log) && (log == bs ==> Complete(start, end, incr, log))
  {
    hide Iterations, Value, Takes, InLoop, Splits, Disjoint, Complete;
    var l := Set(start, end, incr, chunk, nthreads);
    forall x ensures Takes(start, end, incr, x) <==> exists k: int :: 0 <= k < Iterations(l) && x == Value(l, k) {
      TakesIs(start, end, incr, chunk, nthreads, x);
    }
    TakesIs(start, end, incr, chunk, nthreads, start);
    SplitsDisjoint(start, end, l, bs, cut);
    SplitsComplete(start, end, l, bs, cut);
    PrefixDisjoint(start, end, incr, bs, log);
  }

  lemma PrefixDisjoint(start: int, end: int, incr: int, bs: seq<Block>, log: seq<Block>)
    requires log <= bs && Disjoint(start, end, incr, bs)
    ensures Disjoint(start, end, incr, log)
  {
    hide Takes;
  }

  /** The values of l are those of the loop from start to end. */
  ghost predicate Stands(start: int, end: int, l: Loop)
    requires Proper(l)
  {
    && l.next == start && (Ahead(start, end, l.incr) ==> l.end == end) && (Iterations(l) > 0 <==> Ahead(start, end, l.incr))
    && forall x :: Takes(start, end, l.incr, x) <==> exists k: int :: 0 <= k < Iterations(l) && x == Value(l, k)
  }

  lemma BlockTakes(l: Loop, bs: seq<Block>, cut: seq<nat>)
    requires Proper(l) && Splits(l, 0, bs, cut)
    ensures forall b, x :: 0 <= b < |bs| ==>
              (Takes(bs[b].0, bs[b].1, l.incr, x) <==> exists k: int :: cut[b] <= k < cut[b + 1] && x == Value(l, k))
  {
    hide Iterations, Value, Takes;
    forall b, x | 0 <= b < |bs|
      ensures Takes(bs[b].0, bs[b].1, l.incr, x) <==> exists k: int :: cut[b] <= k < cut[b + 1] && x == Value(l, k)
    {
      BlockWalk(l, 0, bs, cut, b, x);
    }
  }

  lemma SplitsDisjoint(start: int, end: int, l: Loop, bs: seq<Block>, cut: seq<nat>)
    requires Proper(l) && Splits(l, 0, bs, cut) && Stands(start, end, l)
    ensures Disjoint(start, end, l.incr, bs)
  {
    hide Iterations, Value, Takes;
    BlockTakes(l, bs, cut);
    ValueZero(l);
    forall b | 0 <= b < |bs| - 1 ensures bs[b].1 == bs[b + 1].0 {
      assert CutBlock(l, bs, cut, b) && CutBlock(l, bs, cut, b + 1);
    }
    if bs != [] {
      assert CutBlock(l, bs, cut, 0);
      SplitsSorted(l, 0, bs, cut, 1, |bs|);
    }
    forall b, x | 0 <= b < |bs| && Takes(bs[b].0, bs[b].1, l.incr, x) ensures Takes(start, end, l.incr, x) {
      var k: int :| cut[b] <= k < cut[b + 1] && x == Value(l, k);
      SplitsSorted(l, 0, bs, cut, b + 1, |bs|);
    }
    forall b, c, x | 0 <= b < c < |bs| && Takes(bs[b].0, bs[b].1, l.incr, x) ensures !Takes(bs[c].0, bs[c].1, l.incr, x) {
      if Takes(bs[c].0, bs[c].1, l.incr, x) {
        var k: int :| cut[b] <= k < cut[b + 1] && x == Value(l, k);
        var m: int :| cut[c] <= m < cut[c + 1] && x == Value(l, m);
        SplitsSorted(l, 0, bs, cut, b + 1, c);
        SameValue(l, k, m);
      }
    }
  }

  lemma SplitsComplete(start: int, end: int, l: Loop, bs: seq<Block>, cut: seq<nat>)
    requires Proper(l) && Splits(l, 0, bs, cut) && Stands(start, end, l)
    ensures Complete(start, end, l.incr, bs)
  {
    hide Iterations, Value, Takes;
    BlockTakes(l, bs, cut);
    if bs != [] {
      assert CutBlock(l, bs, cut, 0) && CutBlock(l, bs, cut, |bs| - 1);
      SplitsSorted(l, 0, bs, cut, 1, |bs|);
    }
    forall x | Takes(start, end, l.incr, x) ensures exists b :: 0 <= b < |bs| && Takes(bs[b].0, bs[b].1, l.incr, x) {
      var k: int :| 0 <= k < Iterations(l) && x == Value(l, k);
      var b := CutAround(l, bs, cut, k);
      assert Takes(bs[b].0, bs[b].1, l.incr, x);
    }
  }

  lemma ValueZero(l: Loop)
    ensures Value(l, 0) == l.next
  {
  }

  lemma {:induction false} CutAround(l: Loop, bs: seq<Block>, cut: seq<nat>, k: nat) returns (b: nat)
    requires Proper(l) && Splits(l, 0, bs, cut) && k < Iterations(l)
    ensures b < |bs| && cut[b] <= k < cut[b + 1]
  {
    hide Iterations, Value;
    b := 0;
    while cut[b + 1] <= k
      invariant b < |bs| && cut[b] <= k
      decreases |bs| - b
    {
      b := b + 1;
    }
  }

  // Dynamic loops.

  /** The chunk is stored right, or what is stored is at least the whole loop. */
  predicate ChunkStored(start: int, end: int, incr: int, chunkSize: int) {
    var l := D.Init(start, end, incr, chunkSize);
    IsLong(chunkSize * incr) || D.Width(l) >= D.Left(l, start)
  }

  /** A team at work on a loop that gomp_loop_init has just set up: fetch-and-add only where the mode test allows it, and a loop
      whose end minus start is a long otherwise. */
  ghost predicate DynamicTeam(start: int, end: int, incr: int, chunkSize: int, s: D.State) {
    && s.next == start && s.log == [] && |s.locals| > 0 && (forall t :: 0 <= t < |s.locals| ==> s.locals[t].Idle?)
    && var l := D.Init(start, end, incr, chunkSize);
    if s.form == D.Add then D.Mode(l, |s.locals|) else D.Fits(l, start)
  }

  /** A loop without iterations: whatever the chunk size, no run hands out a block. */
  lemma NothingToRun(start: int, end: int, incr: int, chunkSize: int, s: D.State, steps: seq<D.Step>, r: D.State)
    requires IsLong(start) && IsLong(end) && incr != 0 && !Ahead(start, end, incr)
    requires DynamicTeam(start, end, incr, chunkSize, s) && D.Leads(D.Init(start, end, incr, chunkSize), s, steps, r)
    ensures r.log == []
  {
    var l := D.Init(start, end, incr, chunkSize);
    if D.Proper(l) {
      D.SameTiling(l, start, s, steps, r);
    } else {
      StaysAtEnd(l, s, steps, r);
    }
  }

  lemma {:induction false} StaysAtEnd(l: D.Loop, s: D.State, steps: seq<D.Step>, r: D.State)
    requires s.next == l.end && IsLong(l.end) && s.log == [] && D.Leads(l, s, steps, r) && (s.form == D.Add ==> l.chunk == 0)
    requires forall t :: 0 <= t < |s.locals| && s.locals[t].Loaded? ==> s.locals[t].start == l.end
    ensures r.log == []
    decreases |steps|
  {
    if steps != [] {
      StaysAtEnd(l, D.Apply(l, s, steps[0]), steps[1..], r);
    }
  }

  /** A block of chunkSize iterations, or what is left of the loop. */
  predicate FullBlock(end: int, incr: int, chunkSize: int, b: Block) {
    b.1 == if Ahead(b.0 + chunkSize * incr, end, incr) then b.0 + chunkSize * incr else end
  }

  /** In every run of every form the blocks handed out follow one another from start, have chunkSize iterations or all that are
      left, and go through no value twice; when every thread has had its first false they end at end and have gone through
      every value of the loop. */
  lemma DynamicRuns(start: int, end: int, incr: int, chunkSize: int, s: D.State, steps: seq<D.Step>, r: D.State)
    requires IsLong(start) && IsLong(end) && IsLong(incr) && incr != 0 && chunkSize >= 1
    requires ChunkStored(start, end, incr, chunkSize) || !Ahead(start, end, incr)
    requires DynamicTeam(start, end, incr, chunkSize, s) && D.Leads(D.Init(start, end, incr, chunkSize), s, steps, r)
    ensures Disjoint(start, end, incr, r.log) && forall i :: 0 <= i < |r.log| ==> FullBlock(end, incr, chunkSize, r.log[i])
    ensures |r.locals| > 0 && (forall t :: 0 <= t < |r.locals| ==> r.locals[t].Stopped?) ==> Complete(start, end, incr, r.log)
  {
    hide D.Leads, D.Mode, Disjoint, Complete, D.Tiling, D.Tiles, Splits;
    if Ahead(start, end, incr) {
      var cut := DynamicCuts(start, end, incr, chunkSize);
      D.SameTiling(D.Init(start, end, incr, chunkSize), start, s, steps, r);
      forall i | 0 <= i < |r.log| ensures FullBlock(end, incr, chunkSize, r.log[i]) {
        TilingBlock(start, end, incr, chunkSize, i);
      }
      SplitsShare(start, end, incr, chunkSize, 1, D.Tiling(D.Init(start, end, incr, chunkSize), start), cut, r.log);
    } else {
      NothingToRun(start, end, incr, chunkSize, s, steps, r);
      NothingTaken(start, end, incr);
    }
  }

  lemma TilingBlock(start: int, end: int, incr: int, chunkSize: int, i: nat)
    requires IsLong(start) && IsLong(end) && IsLong(incr) && incr != 0 && chunkSize >= 1 && Ahead(start, end, incr)
    requires ChunkStored(start, end, incr, chunkSize)
    ensures var d := D.Init(start, end, incr, chunkSize);
            D.Proper(d) && D.Left(d, start) >= 0 && (i < |D.Tiling(d, start)| ==> FullBlock(end, incr, chunkSize, D.Tiling(d, start)[i]))
  {
    var l, d := Set(start, end, incr, chunkSize, 1), D.Init(start, end, incr, chunkSize);
    hide D.Tiling;
    ChunkWay(l);
    if i < |D.Tiling(d, start)| { DynamicEnds(d, start, i); }
  }

  lemma NothingTaken(start: int, end: int, incr: int)
    requires incr != 0 && !Ahead(start, end, incr)
    ensures Disjoint(start, end, incr, []) && Complete(start, end, incr, [])
  {
    forall m: nat ensures !Ahead(Later(start, incr, m), end, incr) {
      if incr > 0 { MulNonNegative(m, incr); } else { MulNonNegative(m, -incr); assert m * -incr == -(m * incr); }
    }
  }

  lemma DynamicCuts(start: int, end: int, incr: int, chunkSize: int) returns (cut: seq<nat>)
    requires IsLong(start) && IsLong(end) && IsLong(incr) && incr != 0 && chunkSize >= 1 && Ahead(start, end, incr)
    requires ChunkStored(start, end, incr, chunkSize)
    ensures var l, d := Set(start, end, incr, chunkSize, 1), D.Init(start, end, incr, chunkSize);
            && Proper(l) && D.Proper(d) && D.Left(d, start) >= 0 && Splits(l, 0, D.Tiling(d, start), cut)
  {
    hide D.Tiling, Splits, Iterations;
    var l, d := Set(start, end, incr, chunkSize, 1), D.Init(start, end, incr, chunkSize);
    ValueZero(l);
    if IsLong(chunkSize * incr) {
      ChunkWay(l);
      assert Dynamic(l) == d;
      cut := DynamicSplits(l, 0);
    } else {
      DynamicTiling(d, start);
      DynamicTiling(d, end);
      LastSplit(l, 0);
      cut := [0, Iterations(l)];
      assert [(start, end)] + [] == [(start, end)];
    }
  }

  // Guided loops.

  function GuidedSet(start: int, end: int, incr: int, chunk: nat, nthreads: nat): G.Loop {
    G.Loop(EndOf(start, end, incr), incr, chunk, nthreads)
  }

  ghost predicate GuidedTeam(start: int, s: G.State) {
    s.next == start && s.log == [] && |s.locals| > 0 && forall t :: 0 <= t < |s.locals| ==> s.locals[t].Idle?
  }

  lemma {:induction false} GuidedAtEnd(l: G.Loop, s: G.State, steps: seq<G.Step>, r: G.State)
    requires G.Proper(l) && s.next == l.end && s.log == [] && G.Leads(l, s, steps, r)
    requires forall t :: 0 <= t < |s.locals| && s.locals[t].Loaded? ==> s.locals[t].start == l.end
    ensures r.log == []
    decreases |steps|
  {
    hide G.ComputedEnd;
    if steps != [] {
      GuidedAtEnd(l, G.Apply(l, s, steps[0]), steps[1..], r);
    }
  }

  /** The same for guided loops, whose blocks are fair shares; one without iterations is not run, whatever the chunk. */
  lemma GuidedRuns(start: int, end: int, incr: int, chunk: nat, nthreads: nat, s: G.State, steps: seq<G.Step>, r: G.State)
    requires IsLong(start) && IsLong(end) && IsLong(incr) && incr != 0 && nthreads > 0
    requires Ahead(start, end, incr) ==> chunk >= 1 && G.Counted(GuidedSet(start, end, incr, chunk, nthreads), start)
    requires GuidedTeam(start, s) && G.Leads(GuidedSet(start, end, incr, chunk, nthreads), s, steps, r)
    ensures Disjoint(start, end, incr, r.log)
    ensures forall i :: 0 <= i < |r.log| ==> G.Fair(GuidedSet(start, end, incr, chunk, nthreads), r.log[i])
    ensures |r.locals| > 0 && (forall t :: 0 <= t < |r.locals| ==> r.locals[t].Stopped?) ==> Complete(start, end, incr, r.log)
  {
    hide G.Leads, G.Counted, Disjoint, Complete, G.Tiling, G.Fair, Splits;
    var l, g := Set(start, end, incr, chunk, nthreads), GuidedSet(start, end, incr, chunk, nthreads);
    if Ahead(start, end, incr) {
      ValueZero(l);
      assert Guided(l) == g;
      var cut := GuidedSplits(l, 0);
      G.SameTiling(g, start, s, steps, r);
      forall i | 0 <= i < |r.log| ensures G.Fair(g, r.log[i]) {
        G.TilingFair(g, start, i);
      }
      SplitsShare(start, end, incr, chunk, nthreads, G.Tiling(g, start), cut, r.log);
    } else {
      GuidedAtEnd(g, s, steps, r);
      NothingTaken(start, end, incr);
    }
  }

  // Static loops.

  /** Every value of the loop from start to end is gone through after exactly one call, and nothing else is. */
  ghost predicate StaticRight(start: int, end: int, incr: int, l: Loop)
    requires Proper(l) && l.nthreads > 1
  {
    && (forall x :: Takes(start, end, incr, x) ==> VisitedOnce(l, x))
    && (forall i: nat, j: nat, x: int :: Visits(l, i, j, x) ==> Takes(start, end, incr, x))
  }

  /** From the arguments alone: where the count is right, that is so if and only if the end of the last block is a long and, with
      a chunk size, no surplus start wraps into the loop. */
  lemma StaticRuns(start: int, end: int, incr: int, chunk: nat, nthreads: nat)
    requires IsLong(start) && IsLong(end) && IsLong(incr) && incr != 0 && nthreads > 1 && chunk <= LONG_MAX
    requires CountFits(Set(start, end, incr, chunk, nthreads))
    ensures var l := Set(start, end, incr, chunk, nthreads);
            && Proper(l)
            && (StaticRight(start, end, incr, l) <==> EndFits(l) && (chunk > 0 ==> NoSurplus(Count(l), nthreads, chunk)))
            && (!Ahead(start, end, incr) ==> Count(l) == 0)
  {
    hide Takes, Visits, VisitedOnce, InLoop, Value, Before, Count, CountFits, EndFits, NoSurplus, Iterations;
    var l := Set(start, end, incr, chunk, nthreads);
    forall x ensures Takes(start, end, incr, x) <==> InLoop(l, x) {
      TakesIs(start, end, incr, chunk, nthreads, x);
    }
    TakesIs(start, end, incr, chunk, nthreads, start);
    RightIff(l);
    CountIff(l);
    RightIsStatic(start, end, l);
  }

  lemma RightIsStatic(start: int, end: int, l: Loop)
    requires Proper(l) && l.nthreads > 1 && forall x :: Takes(start, end, l.incr, x) <==> InLoop(l, x)
    ensures Right(l) <==> StaticRight(start, end, l.incr, l)
  {
    hide Takes, Visits, VisitedOnce, Value, Before;
    if StaticRight(start, end, l.incr, l) {
      forall k: nat | Before(l, k) ensures VisitedOnce(l, Value(l, k)) {
        assert InLoop(l, Value(l, k));
      }
    }
  }
}
