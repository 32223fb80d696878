/** The static schedule in terms of the longs that gomp_iter_static_next returns: which values of the loop variable the
    callers' loops go through. */
module IterStaticReturned {
  import opened Arithmetic
  import opened IterStatic
  import opened IterStaticExact
  import opened LoopInit
  import opened Longs

  /** The loop variable in iteration k. */
  function Value(l: Loop, k: int): int {
    k * l.incr + l.next
  }

  /** The caller's loop from start to end goes through x. */
  ghost predicate Walks(l: Loop, start: int, end: int, x: int) {
    Takes(start, end, l.incr, x)
  }

  /** Thread i goes through x after its call of trip j. */
  ghost predicate Visits(l: Loop, i: nat, j: nat, x: int)
    requires Proper(l) && l.nthreads > 1
  {
    && i < l.nthreads && Alive(Count(l), l.nthreads, l.chunk, i, j)
    && var o := StaticNext(Count(l), l.nthreads, l.chunk, i, j);
    && o.ret == 0 && Walks(l, Wrap(Value(l, o.s0)), Wrap(Value(l, o.e0)), x)
  }

  ghost predicate VisitedOnce(l: Loop, x: int)
    requires Proper(l) && l.nthreads > 1
  {
    exists i: nat, j: nat :: Visits(l, i, j, x) && OnlyVisit(l, i, j, x)
  }

  ghost predicate OnlyVisit(l: Loop, i: nat, j: nat, x: int)
    requires Proper(l) && l.nthreads > 1
  {
    forall u: nat, v: nat :: Visits(l, u, v, x) ==> u == i && v == j
  }

  ghost predicate InLoop(l: Loop, x: int) {
    exists k: nat :: Before(l, k) && x == Value(l, k)
  }

  /** Every value of the loop variable is gone through after exactly one call, and nothing else is. */
  ghost predicate Right(l: Loop)
    requires Proper(l) && l.nthreads > 1
  {
    && (forall k: nat :: Before(l, k) ==> VisitedOnce(l, Value(l, k)))
    && (forall i: nat, j: nat, x: int :: Visits(l, i, j, x) ==> InLoop(l, x))
  }

  /** The end of the last block is a long. */
  predicate EndFits(l: Loop)
    requires Proper(l)
  {
    IsLong(Value(l, Count(l)))
  }

  // Values and bounds.

  lemma ValueOrder(l: Loop, a: int, b: int)
    requires Proper(l)
    ensures a < b <==> if l.incr > 0 then Value(l, a) < Value(l, b) else Value(l, a) > Value(l, b)
  {
    var w := Abs(l.incr);
    assert a * l.incr == (if l.incr > 0 then a * w else -(a * w)) && b * l.incr == if l.incr > 0 then b * w else -(b * w);
    if a < b {
      MulMonotone(a + 1, b, w);
      assert (a + 1) * w == a * w + w;
    } else {
      MulMonotone(b, a, w);
    }
  }

  lemma LaterValue(l: Loop, a: int, m: nat)
    ensures Later(Value(l, a), l.incr, m) == Value(l, a + m)
  {
    assert (a + m) * l.incr == a * l.incr + m * l.incr;
  }

  /** Between two values of the progression the caller's loop goes through those in between. */
  lemma WalksBetween(l: Loop, a: int, b: int, x: int)
    requires Proper(l)
    ensures Walks(l, Value(l, a), Value(l, b), x) <==> exists k: int :: a <= k < b && x == Value(l, k)
  {
    hide Value, Later;
    if Walks(l, Value(l, a), Value(l, b), x) {
      var m: nat :| x == Later(Value(l, a), l.incr, m) && Ahead(x, Value(l, b), l.incr);
      LaterValue(l, a, m);
      ValueOrder(l, a + m, b);
    }
    if k :| a <= k < b && x == Value(l, k) {
      LaterValue(l, a, k - a);
      ValueOrder(l, k, b);
    }
  }

  /** A call hands out iteration numbers below the count. */
  lemma CallRange(n: nat, nthreads: nat, chunk: nat, i: nat, j: nat)
    requires nthreads > 1 && i < nthreads && StaticNext(n, nthreads, chunk, i, j).ret == 0
    ensures var o := StaticNext(n, nthreads, chunk, i, j); 0 <= o.s0 < n && 0 <= o.e0 <= n
  {
    if chunk == 0 {
      UnchunkedCall(n, nthreads, i);
      CutsTile(n, nthreads, i, i);
      CutMonotone(n, nthreads, i + 1, nthreads);
      hide Cut;
    }
  }

  /** Where the count is right, only the end of the last block may not be what it should be. */
  lemma BoundExact(l: Loop, k: nat)
    requires Proper(l) && CountFits(l) && k <= Count(l) && (k < Count(l) || EndFits(l))
    ensures Wrap(Value(l, k)) == Value(l, k)
  {
    hide StepCount, CountFits, Before, Wrap;
    CountIsIterations(l);
    if k < Count(l) { PointIsLong(l, k); }
  }

  /** If the end of the last block is a long, a call's visits are the iterations that it hands out. */
  lemma VisitsAre(l: Loop, i: nat, j: nat, x: int)
    requires Proper(l) && l.nthreads > 1 && CountFits(l) && EndFits(l)
    ensures Visits(l, i, j, x) <==> exists k: nat :: Gets(Count(l), l.nthreads, l.chunk, i, j, k) && x == Value(l, k)
  {
    hide Value, Walks, StaticNext, CountFits, Count, Wrap, Alive, EndFits;
    if i < l.nthreads && StaticNext(Count(l), l.nthreads, l.chunk, i, j).ret == 0 {
      var o := StaticNext(Count(l), l.nthreads, l.chunk, i, j);
      CallRange(Count(l), l.nthreads, l.chunk, i, j);
      BoundExact(l, o.s0);
      BoundExact(l, o.e0);
      WalksBetween(l, o.s0, o.e0, x);
      if Visits(l, i, j, x) {
        var k: int :| o.s0 <= k < o.e0 && x == Value(l, k);
        assert Gets(Count(l), l.nthreads, l.chunk, i, j, k);
      }
    }
  }

  lemma SameValue(l: Loop, a: int, b: int)
    requires Proper(l) && Value(l, a) == Value(l, b)
    ensures a == b
  {
    ValueOrder(l, a, b);
    ValueOrder(l, b, a);
  }

  lemma VisitsValue(l: Loop, i: nat, j: nat, k: nat)
    requires Proper(l) && l.nthreads > 1 && CountFits(l) && EndFits(l)
    ensures Visits(l, i, j, Value(l, k)) <==> Gets(Count(l), l.nthreads, l.chunk, i, j, k)
  {
    hide Visits, Gets, Value, CountFits, EndFits, Count;
    VisitsAre(l, i, j, Value(l, k));
    if Visits(l, i, j, Value(l, k)) {
      var m: nat :| Gets(Count(l), l.nthreads, l.chunk, i, j, m) && Value(l, k) == Value(l, m);
      SameValue(l, k, m);
    }
  }

  lemma OnceIff(l: Loop, k: nat)
    requires Proper(l) && l.nthreads > 1 && CountFits(l) && EndFits(l)
    ensures VisitedOnce(l, Value(l, k)) <==> Once(Count(l), l.nthreads, l.chunk, k)
  {
    hide Visits, Gets, Value, CountFits, EndFits, Count;
    forall i: nat, j: nat ensures Visits(l, i, j, Value(l, k)) <==> Gets(Count(l), l.nthreads, l.chunk, i, j, k) {
      VisitsValue(l, i, j, k);
    }
    if VisitedOnce(l, Value(l, k)) {
      var i: nat, j: nat :| Visits(l, i, j, Value(l, k)) && OnlyVisit(l, i, j, Value(l, k));
      assert Gets(Count(l), l.nthreads, l.chunk, i, j, k) && Only(Count(l), l.nthreads, l.chunk, i, j, k);
    }
    if Once(Count(l), l.nthreads, l.chunk, k) {
      var i: nat, j: nat :| Gets(Count(l), l.nthreads, l.chunk, i, j, k) && Only(Count(l), l.nthreads, l.chunk, i, j, k);
      assert Visits(l, i, j, Value(l, k)) && OnlyVisit(l, i, j, Value(l, k));
    }
  }

  lemma VisitsInLoop(l: Loop, i: nat, j: nat, x: int)
    requires Proper(l) && l.nthreads > 1 && CountFits(l) && EndFits(l) && Visits(l, i, j, x)
    ensures InLoop(l, x)
  {
    hide Visits, Value, CountFits, EndFits, Count, Before;
    VisitsAre(l, i, j, x);
    var k: nat :| Gets(Count(l), l.nthreads, l.chunk, i, j, k) && x == Value(l, k);
    CallRange(Count(l), l.nthreads, l.chunk, i, j);
    CountIsIterations(l);
  }

  /** If the end of the last block is a long, the values are handed out as the iteration numbers are. */
  lemma RightIsOnce(l: Loop)
    requires Proper(l) && l.nthreads > 1 && CountFits(l) && EndFits(l)
    ensures Right(l) <==> forall k: nat :: k < Count(l) ==> Once(Count(l), l.nthreads, l.chunk, k)
  {
    hide Visits, VisitedOnce, Once, Value, CountFits, EndFits, Count, Before, InLoop;
    CountIsIterations(l);
    forall k: nat ensures VisitedOnce(l, Value(l, k)) <==> Once(Count(l), l.nthreads, l.chunk, k) {
      OnceIff(l, k);
    }
    forall i: nat, j: nat, x: int | Visits(l, i, j, x) ensures InLoop(l, x) {
      VisitsInLoop(l, i, j, x);
    }
    if Right(l) {
      forall k: nat | k < Count(l) ensures Once(Count(l), l.nthreads, l.chunk, k) {
        assert Before(l, k);
      }
    }
  }

  // The end that wraps around.

  lemma CountBelow(l: Loop)
    requires Proper(l)
    ensures Count(l) < TWO64
  {
  }

  lemma EmptyFits(l: Loop)
    requires Proper(l) && Count(l) == 0
    ensures EndFits(l)
  {
  }

  /** The end of the last block, if it wraps, comes before its last value. */
  lemma WrappedEnd(l: Loop)
    requires Proper(l) && CountFits(l) && Count(l) > 0 && !EndFits(l)
    ensures var last, end := Value(l, Count(l) - 1), Wrap(Value(l, Count(l))); if l.incr > 0 then end <= last else end >= last
  {
    hide StepCount, CountFits, Before, Wrap, Count;
    BoundExact(l, Count(l) - 1);
    assert Value(l, Count(l)) == Value(l, Count(l) - 1) + l.incr;
    hide Value;
    WrapFar(Value(l, Count(l)));
  }

  /** No call then goes through the last value. */
  lemma LastLost(l: Loop, i: nat, j: nat)
    requires Proper(l) && l.nthreads > 1 && CountFits(l) && Count(l) > 0 && !EndFits(l)
    ensures !Visits(l, i, j, Value(l, Count(l) - 1))
  {
    hide Value, StaticNext, CountFits, Count, Wrap, Alive, EndFits;
    var n := Count(l);
    var x := Value(l, n - 1);
    if Visits(l, i, j, x) {
      var o := StaticNext(n, l.nthreads, l.chunk, i, j);
      CallRange(n, l.nthreads, l.chunk, i, j);
      BoundExact(l, o.s0);
      if o.e0 < n {
        BoundExact(l, o.e0);
        WalksBetween(l, o.s0, o.e0, x);
        var k: int :| o.s0 <= k < o.e0 && x == Value(l, k);
        SameValue(l, k, n - 1);
      } else {
        WrappedEnd(l);
      }
    }
  }

  /** Where the count is right, the team goes through every value of the loop variable exactly once and through nothing else
      if and only if the end of the last block is a long and, with a chunk size, no surplus start wraps into the loop. */
  lemma RightIff(l: Loop)
    requires Proper(l) && l.nthreads > 1 && l.chunk <= LONG_MAX && CountFits(l)
    ensures Right(l) <==> EndFits(l) && (l.chunk > 0 ==> NoSurplus(Count(l), l.nthreads, l.chunk))
  {
    hide Visits, Once, Value, CountFits, Count, Before, NoSurplus, EndFits;
    if EndFits(l) {
      RightIsOnce(l);
      if l.chunk > 0 {
        CountBelow(l);
        ExactlyOnceIff(Count(l), l.nthreads, l.chunk);
      } else {
        forall k: nat | k < Count(l) ensures Once(Count(l), l.nthreads, 0, k) {
          UnchunkedExactly(Count(l), l.nthreads, k);
        }
      }
    } else {
      if Count(l) == 0 { EmptyFits(l); }
      CountIsIterations(l);
      var x := Value(l, Count(l) - 1);
      forall i: nat, j: nat ensures !Visits(l, i, j, x) {
        LastLost(l, i, j);
      }
      assert Before(l, Count(l) - 1) && !VisitedOnce(l, x);
    }
  }

  /** A loop by fours up to LONG_MAX, in chunks of 1 or in one block for each thread: the count is right, no start wraps, and
      the end of the last block does. */
  function UpToMax(chunk: nat): Loop {
    Loop(10, LONG_MAX, 4, chunk, 2)
  }

  /** On its last trip thread 1 is given the last iteration with an end below zero. */
  lemma LastIterationLost()
    ensures var l, n := UpToMax(1), 0x1fff_ffff_ffff_fffe;
            && Proper(l) && CountFits(l) && Count(l) == n && Sized(n, 2, 1) && NoSurplus(n, 2, 1) && !EndFits(l) && !Right(l)
            && var o := StaticNext(n, 2, 1, 1, 0x0fff_ffff_ffff_fffe);
            o == Outcome(0, -1, n - 1, n) && Wrap(Value(l, o.s0)) == LONG_MAX - 1 && Wrap(Value(l, o.e0)) < 0
  {
    var l := UpToMax(1);
    UpToMaxCount(1);
    NoSurplusOne(Count(l));
    RightIff(l);
  }

  lemma UpToMaxCount(chunk: nat)
    ensures Count(UpToMax(chunk)) == 0x1fff_ffff_ffff_fffe
  {
  }

  lemma NoSurplusOne(n: nat)
    requires n < TWO64
    ensures NoSurplus(n, 2, 1)
  {
    forall k: nat | Blocks(n, 1) <= k < Blocks(n, 1) + 1 ensures Beyond(n, 1, k) {
      DivUnique(n, 1, n, 0);
      StartIs(1, k);
      SmallMod(k);
    }
  }

  /** Without a chunk size the whole block of thread 1, half of the loop, is lost. */
  lemma HalfLost()
    ensures var l, n := UpToMax(0), 0x1fff_ffff_ffff_fffe;
            && Proper(l) && CountFits(l) && Count(l) == n && !Right(l)
            && var o := StaticNext(n, 2, 0, 1, 0);
            o == Outcome(0, -1, n / 2, n) && Wrap(Value(l, o.s0)) > 0 && Wrap(Value(l, o.e0)) < 0
  {
    UpToMaxCount(0);
    RightIff(UpToMax(0));
  }

  /** With a count that is too small the value after the last one counted is lost. */
  lemma TooFew(l: Loop)
    requires Proper(l) && l.nthreads > 1 && Count(l) < Iterations(l)
    ensures !Right(l)
  {
    hide Visits, Value, Count, Before;
    IterationsAre(l, Count(l));
    var x := Value(l, Count(l));
    forall i: nat, j: nat ensures !Visits(l, i, j, x) {
      PastCount(l, i, j);
    }
    assert !VisitedOnce(l, x);
  }

  lemma PastCount(l: Loop, i: nat, j: nat)
    requires Proper(l) && l.nthreads > 1 && Count(l) < Iterations(l)
    ensures !Visits(l, i, j, Value(l, Count(l)))
  {
    hide Value, StaticNext, Count, Iterations, Wrap, Alive;
    var n := Count(l);
    if Visits(l, i, j, Value(l, n)) {
      var o := StaticNext(n, l.nthreads, l.chunk, i, j);
      CallRange(n, l.nthreads, l.chunk, i, j);
      BoundBefore(l, o.s0);
      BoundBefore(l, o.e0);
      WalksBetween(l, o.s0, o.e0, Value(l, n));
      var k: int :| o.s0 <= k < o.e0 && Value(l, n) == Value(l, k);
      SameValue(l, k, n);
    }
  }

  lemma BoundBefore(l: Loop, k: nat)
    requires Proper(l) && k < Iterations(l)
    ensures Wrap(Value(l, k)) == Value(l, k)
  {
    IterationsAre(l, k);
    PointIsLong(l, k);
  }

  /** With a count that is too large the schedule can still be right by accident: here thread 0 gets an empty block, and thread 1 all. */
  lemma RightByAccident()
    ensures var l := Loop(-LONG_MAX - 1, LONG_MAX - 2, 2, 0, 2);
            && Proper(l) && !CountFits(l)
            && var o, p := StaticNext(Count(l), 2, 0, 0, 0), StaticNext(Count(l), 2, 0, 1, 0);
            && o.ret == 0 == p.ret
            && Wrap(Value(l, o.s0)) == Wrap(Value(l, o.e0))
            && Wrap(Value(l, p.s0)) == l.next && l.end <= Wrap(Value(l, p.e0)) < l.end + 2
  {
  }
}
