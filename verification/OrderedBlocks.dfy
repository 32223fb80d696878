/** The ordered dynamic and guided loops as a whole: the locked allocators supply the cut points of the protocol, and what they
    return decides which step it takes. */
module OrderedBlocks {
  import opened Arithmetic
  import opened IterStatic
  import opened IterStaticReturned
  import opened LoopInit
  import opened Longs
  import D = IterDynamic
  import G = IterGuided
  import O = OrderedLoop

  type Block = (int, int)

  /** The blocks from iteration a on, by the iteration numbers at which they are cut. */
  ghost predicate Splits(l: Loop, a: nat, bs: seq<Block>, cut: seq<nat>)
    requires Proper(l)
  {
    && |cut| == |bs| + 1 && cut[0] == a && cut[|bs|] == Iterations(l)
    && (forall b :: 0 <= b < |bs| ==> CutBlock(l, bs, cut, b))
  }

  /** Block b runs from the value at its cut to that at the next one; the last block runs to the end of the loop. */
  predicate CutBlock(l: Loop, bs: seq<Block>, cut: seq<nat>, b: nat)
    requires b < |bs| && |cut| == |bs| + 1
  {
    && cut[b] < cut[b + 1] && bs[b].0 == Value(l, cut[b])
    && bs[b].1 == if b + 1 < |bs| then Value(l, cut[b + 1]) else l.end
  }

  lemma {:induction false} SplitsSorted(l: Loop, a: nat, bs: seq<Block>, cut: seq<nat>, i: nat, j: nat)
    requires Proper(l) && Splits(l, a, bs, cut) && i <= j < |cut|
    ensures cut[i] <= cut[j]
    decreases j
  {
    if i < j {
      SplitsSorted(l, a, bs, cut, i, j - 1);
      assert CutBlock(l, bs, cut, j - 1);
    }
  }

  lemma EndIs(l: Loop, a: nat)
    requires Proper(l) && Value(l, a) == l.end
    ensures a == Iterations(l)
  {
    hide Iterations;
    IterationsAre(l, a);
    if a > 0 {
      ValueOrder(l, a - 1, a);
      IterationsAre(l, a - 1);
    }
  }

  lemma NoSplit(l: Loop, a: nat) returns (cut: seq<nat>)
    requires Proper(l) && Value(l, a) == l.end
    ensures Splits(l, a, [], cut)
  {
    EndIs(l, a);
    hide Value, Iterations;
    cut := [a];
  }

  /** A block of several iterations, or of one, in front of others. */
  lemma FrontSplit(l: Loop, a: nat, a2: nat, bs: seq<Block>, cut: seq<nat>)
    requires Proper(l) && a < a2 && Splits(l, a2, bs, cut) && (bs == [] ==> Value(l, a2) == l.end)
    ensures Splits(l, a, [(Value(l, a), Value(l, a2))] + bs, [a] + cut)
  {
    hide Value, Iterations;
    var bs2, cut2 := [(Value(l, a), Value(l, a2))] + bs, [a] + cut;
    forall b | 0 <= b < |bs2| ensures CutBlock(l, bs2, cut2, b) {
      if b > 0 { assert CutBlock(l, bs, cut, b - 1); }
    }
  }

  lemma LastSplit(l: Loop, a: nat)
    requires Proper(l) && Before(l, a)
    ensures Splits(l, a, [(Value(l, a), l.end)], [a, Iterations(l)])
  {
    hide Value, Iterations, Before;
    IterationsAre(l, a);
  }

  /** The caller's loop goes through the iterations of the block. */
  lemma BlockWalk(l: Loop, a: nat, bs: seq<Block>, cut: seq<nat>, b: nat, x: int)
    requires Proper(l) && Splits(l, a, bs, cut) && b < |bs|
    ensures Walks(l, bs[b].0, bs[b].1, x) <==> exists k: int :: cut[b] <= k < cut[b + 1] && x == Value(l, k)
  {
    assert CutBlock(l, bs, cut, b);
    hide Value, Iterations, Walks;
    if b + 1 < |bs| {
      WalksBetween(l, cut[b], cut[b + 1], x);
    } else {
      WalksToEnd(l, cut[b], x);
    }
  }

  lemma WalksToEnd(l: Loop, a: nat, x: int)
    requires Proper(l)
    ensures Walks(l, Value(l, a), l.end, x) <==> exists k: int :: a <= k < Iterations(l) && x == Value(l, k)
  {
    hide Later, Iterations;
    if Walks(l, Value(l, a), l.end, x) {
      var m: nat :| x == Later(Value(l, a), l.incr, m) && Ahead(x, l.end, l.incr);
      LaterValue(l, a, m);
      IterationsAre(l, a + m);
    }
    if k :| a <= k < Iterations(l) && x == Value(l, k) {
      LaterValue(l, a, k - a);
      IterationsAre(l, k);
    }
  }

  // Dynamic loops.

  /** The loop as the dynamic allocator sees it. */
  function Dynamic(l: Loop): D.Loop {
    D.Loop(l.end, l.incr, l.chunk * l.incr)
  }

  lemma DynamicNext(l: Loop, a: nat)
    requires Proper(l) && l.chunk >= 1 && Before(l, a)
    ensures var d := Dynamic(l);
            && D.Proper(d) && D.Left(d, Value(l, a)) > 0
            && (if D.Left(d, Value(l, a)) >= D.Width(d) then D.BlockEnd(d, d.chunk, Value(l, a)) == Value(l, a + l.chunk)
                else D.BlockEnd(d, d.chunk, Value(l, a)) == l.end)
            && (D.Left(d, Value(l, a)) >= D.Width(d) ==> 0 <= D.Left(d, Value(l, a + l.chunk)) < D.Left(d, Value(l, a)))
  {
    ChunkWay(l);
    LaterValue(l, a, l.chunk);
    var x, y, c := Value(l, a), Value(l, a + l.chunk), l.chunk * l.incr;
    assert y == x + c && if l.incr > 0 then x < l.end else x > l.end;
    hide Value;
  }

  /** The blocks of dynamic scheduling are cut at iterations. */
  lemma {:induction false} DynamicSplits(l: Loop, a: nat) returns (cut: seq<nat>)
    requires Proper(l) && l.chunk >= 1 && D.Proper(Dynamic(l)) && D.Left(Dynamic(l), Value(l, a)) >= 0
    ensures Splits(l, a, D.Tiling(Dynamic(l), Value(l, a)), cut)
    decreases D.Left(Dynamic(l), Value(l, a))
  {
    hide D.BlockEnd, D.Tiling, Value, Iterations, Splits, Before;
    var d, x := Dynamic(l), Value(l, a);
    DynamicTiling(d, x);
    if x == l.end {
      cut := NoSplit(l, a);
    } else {
      SomeLeft(l, a);
      DynamicNext(l, a);
      var y := D.BlockEnd(d, d.chunk, x);
      DynamicTiling(d, y);
      if D.Left(d, x) >= D.Width(d) {
        var rest := DynamicSplits(l, a + l.chunk);
        FrontSplit(l, a, a + l.chunk, D.Tiling(d, y), rest);
        cut := [a] + rest;
      } else {
        LastSplit(l, a);
        cut := [a, Iterations(l)];
        assert [(x, y)] + D.Tiling(d, y) == [(x, l.end)];
      }
    }
  }

  lemma DynamicTiling(d: D.Loop, x: int)
    requires D.Proper(d) && D.Left(d, x) >= 0
    ensures D.Tiling(d, x) == if x == d.end then [] else [(x, D.BlockEnd(d, d.chunk, x))] + D.Tiling(d, D.BlockEnd(d, d.chunk, x))
  {
  }

  // Guided loops.

  function Guided(l: Loop): G.Loop {
    G.Loop(l.end, l.incr, l.chunk, l.nthreads)
  }

  /** A guided block takes whole steps, or all that is left. */
  lemma GuidedNext(l: Loop, a: nat) returns (q: nat)
    requires Proper(l) && l.chunk >= 1 && Before(l, a)
    ensures var g := Guided(l);
            && G.Proper(g) && G.Left(g, Value(l, a)) > 0
            && (if q > 0 then G.BlockEnd(g, Value(l, a)) == Value(l, a + q) else G.BlockEnd(g, Value(l, a)) == l.end)
            && 0 <= G.Left(g, G.BlockEnd(g, Value(l, a))) < G.Left(g, Value(l, a))
  {
    hide G.BlockEnd, G.After, G.Steps, G.Quota;
    var g, x := Guided(l), Value(l, a);
    G.BlockLeft(g, x);
    G.AfterBelow(g, G.Left(g, x));
    q := GuidedSteps(g, x);
    LaterValue(l, a, q);
  }

  lemma GuidedSteps(g: G.Loop, x: int) returns (q: nat)
    requires G.Proper(g) && g.chunk >= 1
    ensures G.BlockEnd(g, x) == if q > 0 then x + q * g.incr else g.end
  {
    hide Quotient, G.RoundedUp;
    var n := Quotient(g.end - x, g.incr);
    q := G.AtLeastChunk(g, G.RoundedUp(n, g.nthreads));
    if q > n { q := 0; }
  }

  lemma {:induction false} GuidedSplits(l: Loop, a: nat) returns (cut: seq<nat>)
    requires Proper(l) && l.chunk >= 1 && G.Left(Guided(l), Value(l, a)) >= 0
    ensures Splits(l, a, G.Tiling(Guided(l), Value(l, a)), cut)
    decreases G.Left(Guided(l), Value(l, a))
  {
    hide G.BlockEnd, G.Left, G.Tiling, Value, Iterations, Splits, Before;
    var g, x := Guided(l), Value(l, a);
    if x == l.end {
      cut := NoSplit(l, a);
      NothingLeft(g);
    } else {
      SomeLeft(l, a);
      var q := GuidedNext(l, a);
      var y := G.BlockEnd(g, x);
      GuidedTiling(g, x);
      if q > 0 {
        var rest := GuidedSplits(l, a + q);
        GuidedNone(g, y);
        FrontSplit(l, a, a + q, G.Tiling(g, y), rest);
        cut := [a] + rest;
      } else {
        NothingLeft(g);
        LastSplit(l, a);
        cut := [a, Iterations(l)];
        assert [(x, y)] + G.Tiling(g, y) == [(x, l.end)];
      }
    }
  }

  lemma SomeLeft(l: Loop, a: nat)
    requires Proper(l) && G.Left(Guided(l), Value(l, a)) >= 0 && Value(l, a) != l.end
    ensures Before(l, a)
  {
  }

  lemma NothingLeft(g: G.Loop)
    requires G.Proper(g) && g.chunk >= 1
    ensures G.Left(g, g.end) == 0 && G.Tiling(g, g.end) == []
  {
  }

  lemma GuidedTiling(g: G.Loop, x: int)
    requires G.Proper(g) && g.chunk >= 1 && G.Left(g, x) >= 0 && x != g.end && G.Left(g, G.BlockEnd(g, x)) >= 0
    ensures G.Tiling(g, x) == [(x, G.BlockEnd(g, x))] + G.Tiling(g, G.BlockEnd(g, x))
  {
    hide G.BlockEnd, G.Left;
  }

  lemma GuidedNone(g: G.Loop, x: int)
    requires G.Proper(g) && g.chunk >= 1 && G.Left(g, x) >= 0
    ensures G.Tiling(g, x) == [] ==> x == g.end
  {
    hide G.BlockEnd;
  }

  // The protocol.

  /** The protocol's cut points are those of the blocks, and next is where the first block starts that is not given out. */
  ghost predicate Supplies(l: Loop, bs: seq<Block>, s: O.State, next: int)
    requires Proper(l)
  {
    Splits(l, 0, bs, s.cut) && s.given <= |bs| && next == if s.given < |bs| then bs[s.given].0 else l.end
  }

  lemma NotYet(l: Loop, bs: seq<Block>, s: O.State, next: int)
    requires Proper(l) && Supplies(l, bs, s, next)
    ensures s.given + 1 <= |s.cut| && (next == l.end <==> s.given + 1 == |s.cut|)
    ensures next != l.end ==> s.given < |bs| && bs[s.given].0 == next
  {
    hide Iterations, Value;
    if s.given < |bs| {
      assert CutBlock(l, bs, s.cut, s.given);
      SplitsSorted(l, 0, bs, s.cut, s.given + 1, |bs|);
      IterationsAre(l, s.cut[s.given]);
      PointBefore(l, s.cut[s.given]);
    }
  }

  lemma PointBefore(l: Loop, k: nat)
    requires Before(l, k)
    ensures Value(l, k) != l.end
  {
  }

  /** What gomp_loop_ordered_dynamic_start, gomp_loop_ordered_dynamic_next and their guided twins do with the allocator's
      answer: whether there is a block decides between gomp_ordered_first or gomp_ordered_next, and gomp_ordered_last. */
  ghost predicate Follows(s: O.State, e: O.Step, some: bool, r: O.State) {
    && (e.Start? || e.More?) && O.Shape(s) && O.QueueIds(s) && e.t < s.n && (e.More? && s.n > 1 ==> s.used > 0)
    && r == if some then O.Take(if e.Start? then O.First(s, e.t) else O.Next(s, e.t), e.t)
            else O.SetPhase(if e.Start? then s else O.Last(s), e.t, O.Done)
  }

  lemma StepIs(s: O.State, e: O.Step, some: bool)
    requires O.Inv(s) && O.Enabled(s, e) && (e.Start? || e.More?) && (some <==> s.given + 1 < |s.cut|)
    ensures O.Shape(s) && O.QueueIds(s) && (e.More? && s.n > 1 ==> s.used > 0)
    ensures Follows(s, e, some, O.Apply(s, e))
    ensures O.Apply(s, e).cut == s.cut && O.Apply(s, e).given == s.given + if some then 1 else 0
  {
    hide O.QueueOk, O.TokenOk, O.LogOk, O.Front, O.PlacesOk, O.Place, O.Queue, O.AloneOk;
    if e.More? { O.OwnerFront(s, e.t); }
    hide O.Inv;
  }

  /** The next block, and where next is after it. */
  lemma NextSupplied(l: Loop, bs: seq<Block>, s: O.State, r: O.State)
    requires Proper(l) && Splits(l, 0, bs, s.cut) && s.given < |bs| && r.cut == s.cut && r.given == s.given + 1
    ensures Supplies(l, bs, r, bs[s.given].1)
    ensures forall x: int :: Walks(l, bs[s.given].0, bs[s.given].1, x) <==>
                             exists k: int :: s.cut[s.given] <= k < s.cut[s.given + 1] && x == Value(l, k)
  {
    hide Value, Iterations, Walks;
    assert CutBlock(l, bs, s.cut, s.given);
    assert r.given < |bs| ==> CutBlock(l, bs, s.cut, r.given);
    forall x: int ensures Walks(l, bs[s.given].0, bs[s.given].1, x) <==>
                          exists k: int :: s.cut[s.given] <= k < s.cut[s.given + 1] && x == Value(l, k)
    {
      BlockWalk(l, 0, bs, s.cut, s.given, x);
    }
  }

  /** The caller's loop over block b of the protocol goes through the iterations between its cuts. */
  ghost predicate Runs(l: Loop, s: O.State, start: int, end: int) {
    && s.given + 1 < |s.cut|
    && forall x: int :: Walks(l, start, end, x) <==> exists k: int :: s.cut[s.given] <= k < s.cut[s.given + 1] && x == Value(l, k)
  }

  lemma {:induction false} DynamicEnds(d: D.Loop, x: int, b: nat)
    requires D.Proper(d) && D.Left(d, x) >= 0 && b < |D.Tiling(d, x)|
    ensures var c := D.Tiling(d, x)[b]; 0 < D.Left(d, c.0) <= D.Left(d, x) && c.1 == D.BlockEnd(d, d.chunk, c.0)
    decreases b
  {
    if b > 0 { DynamicEnds(d, D.BlockEnd(d, d.chunk, x), b - 1); }
  }

  lemma {:induction false} GuidedEnds(g: G.Loop, x: int, b: nat)
    requires G.Proper(g) && g.chunk >= 1 && G.Left(g, x) >= 0 && b < |G.Tiling(g, x)|
    ensures var c := G.Tiling(g, x)[b]; 0 < G.Left(g, c.0) <= G.Left(g, x) && c.1 == G.BlockEnd(g, c.0)
    decreases b
  {
    G.BlockLeft(g, x);
    G.AfterBelow(g, G.Left(g, x));
    hide G.BlockEnd, G.After, G.Steps, G.Quota;
    if b > 0 { GuidedEnds(g, G.BlockEnd(g, x), b - 1); }
  }

  /** The loop as gomp_loop_init stores it, with the chunk in 64 bits. */
  function Stored(l: Loop): D.Loop {
    D.Init(l.next, l.end, l.incr, l.chunk)
  }

  /** The chunk is stored right, or what is stored is at least the whole loop. */
  predicate StoredRight(l: Loop) {
    IsLong(l.chunk * l.incr) || D.Left(Stored(l), l.next) == 0 || D.Width(Stored(l)) >= D.Left(Stored(l), l.next)
  }

  /** From what is stored the code computes the ends of the blocks. */
  lemma StoredBlock(l: Loop, x: int)
    requires Proper(l) && l.chunk >= 1 && StoredRight(l) && D.Fits(Dynamic(l), l.next)
    requires 0 < D.Left(Dynamic(l), x) <= D.Left(Dynamic(l), l.next)
    ensures Stored(l).end == l.end && D.ComputedEnd(Stored(l), Stored(l).chunk, x) == D.BlockEnd(Dynamic(l), Dynamic(l).chunk, x)
  {
    ChunkWay(l);
  }

  /** A dynamic loop: the locked allocator gives a block exactly when the protocol has one left, and it is that block. */
  lemma DynamicMatches(l: Loop, s: O.State, d: D.State, e: O.Step)
    requires Proper(l) && l.chunk >= 1 && StoredRight(l) && D.Fits(Dynamic(l), l.next)
    requires O.Inv(s) && O.Enabled(s, e) && (e.Start? || e.More?) && e.t < |d.locals|
    requires D.Proper(Dynamic(l)) && Supplies(l, D.Tiling(Dynamic(l), l.next), s, d.next)
    ensures O.Shape(s) && O.QueueIds(s) && (e.More? && s.n > 1 ==> s.used > 0)
    ensures var r, c, some := O.Apply(s, e), D.CallLocked(Stored(l), d, e.t), d.next != l.end;
            && (some <==> s.given + 1 < |s.cut|) && Follows(s, e, some, r)
            && Supplies(l, D.Tiling(Dynamic(l), l.next), r, c.next)
            && (some ==> c.log == d.log + [(d.next, c.next)] && Runs(l, s, d.next, c.next))
  {
    hide O.Inv, O.Enabled, O.Apply, D.Tiling, Follows, Splits, Value, Walks, D.ComputedEnd, D.BlockEnd;
    var bs := D.Tiling(Dynamic(l), l.next);
    NotYet(l, bs, s, d.next);
    StepIs(s, e, d.next != l.end);
    if d.next != l.end {
      DynamicEnds(Dynamic(l), l.next, s.given);
      StoredBlock(l, d.next);
      NextSupplied(l, bs, s, O.Apply(s, e));
    }
  }

  /** A guided loop: the same. */
  lemma GuidedMatches(l: Loop, s: O.State, next: int, e: O.Step)
    requires Proper(l) && l.chunk >= 1 && G.Counted(Guided(l), l.next)
    requires O.Inv(s) && O.Enabled(s, e) && (e.Start? || e.More?)
    requires Supplies(l, G.Tiling(Guided(l), l.next), s, next)
    ensures O.Shape(s) && O.QueueIds(s) && (e.More? && s.n > 1 ==> s.used > 0)
    ensures var r, some := O.Apply(s, e), next != l.end;
            && (some <==> s.given + 1 < |s.cut|) && Follows(s, e, some, r)
            && var end := if some then G.ComputedEnd(Guided(l), next) else next;
            && Supplies(l, G.Tiling(Guided(l), l.next), r, end)
            && (some ==> Runs(l, s, next, end))
  {
    hide O.Inv, O.Enabled, O.Apply, G.Tiling, Follows, Splits, Value, Walks, G.ComputedEnd, G.BlockEnd, G.Counted;
    var bs := G.Tiling(Guided(l), l.next);
    NotYet(l, bs, s, next);
    StepIs(s, e, next != l.end);
    if next != l.end {
      GuidedEnds(Guided(l), l.next, s.given);
      G.CountedFurther(Guided(l), l.next, next);
      G.ComputedIs(Guided(l), next);
      NextSupplied(l, bs, s, O.Apply(s, e));
    }
  }

  /** There are such cut points for every loop, and a protocol that starts with them. */
  lemma CutsExist(l: Loop) returns (dynamic: seq<nat>, guided: seq<nat>)
    requires Proper(l) && l.chunk >= 1
    ensures D.Proper(Dynamic(l)) && D.Left(Dynamic(l), l.next) >= 0 && G.Left(Guided(l), l.next) >= 0
    ensures Splits(l, 0, D.Tiling(Dynamic(l), l.next), dynamic) && Splits(l, 0, G.Tiling(Guided(l), l.next), guided)
    ensures forall s: O.State :: O.Initial(s) && s.cut == dynamic ==> Supplies(l, D.Tiling(Dynamic(l), l.next), s, l.next)
    ensures forall s: O.State :: O.Initial(s) && s.cut == guided ==> Supplies(l, G.Tiling(Guided(l), l.next), s, l.next)
  {
    assert Value(l, 0) == l.next;
    ChunkWay(l);
    dynamic := DynamicSplits(l, 0);
    guided := GuidedSplits(l, 0);
    FirstBlock(l, D.Tiling(Dynamic(l), l.next), dynamic);
    FirstBlock(l, G.Tiling(Guided(l), l.next), guided);
    hide Splits, D.Tiling, G.Tiling;
  }

  lemma ChunkWay(l: Loop)
    requires Proper(l) && l.chunk >= 1
    ensures D.Proper(Dynamic(l)) && D.Left(Dynamic(l), l.next) >= 0
  {
    assert l.chunk * -l.incr == -(l.chunk * l.incr);
    if l.incr > 0 { MulMonotone(1, l.chunk, l.incr); } else { MulMonotone(1, l.chunk, -l.incr); }
  }

  lemma FirstBlock(l: Loop, bs: seq<Block>, cut: seq<nat>)
    requires Proper(l) && Splits(l, 0, bs, cut)
    ensures l.next == if bs != [] then bs[0].0 else l.end
  {
    assert Value(l, 0) == l.next;
    if bs == [] {
      IterationsAre(l, 0);
    } else {
      assert CutBlock(l, bs, cut, 0);
    }
  }
}
