/** Dynamic loop scheduling: the locked form, the compare-and-swap form and the fetch-and-add form of the same iteration
    allocator, in 64-bit arithmetic. */
module IterDynamic {
  import opened Arithmetic
  import opened LoopInit
  import opened Longs

  /** The fields that the allocator reads: chunk is the chunk size times the increment. */
  datatype Loop = Loop(end: int, incr: int, chunk: int)

  /** gomp_loop_init. */
  function Init(start: int, end: int, incr: int, chunkSize: int): Loop {
    Loop(EndOf(start, end, incr), incr, Wrap(chunkSize * incr))
  }

  /** How far x is from the end, in the direction of the loop; negative past the end. */
  function Left(l: Loop, x: int): int {
    if l.incr > 0 then l.end - x else x - l.end
  }

  function Width(l: Loop): int {
    if l.incr > 0 then l.chunk else -l.chunk
  }

  predicate Proper(l: Loop) {
    l.incr != 0 && Width(l) > 0
  }

  lemma InitProper(start: int, end: int, incr: int, chunkSize: int)
    requires incr != 0 && chunkSize >= 1 && IsLong(chunkSize * incr)
    ensures Proper(Init(start, end, incr, chunkSize)) && Left(Init(start, end, incr, chunkSize), start) >= 0
  {
    if incr > 0 { MulMonotone(1, chunkSize, incr); } else { MulMonotone(1, chunkSize, -incr); }
  }

  /** The end of the block that starts at x: a chunk further, or what is left. */
  function BlockEnd(l: Loop, chunk: int, x: int): int {
    var left := l.end - x;
    var c := if l.incr < 0 then (if chunk < left then left else chunk) else (if chunk > left then left else chunk);
    x + c
  }

  /** The same as the code computes it, with a chunk that may have been clipped before. */
  function ComputedEnd(l: Loop, chunk: int, x: int): int {
    var left := Wrap(l.end - x);
    var c := if l.incr < 0 then (if chunk < left then left else chunk) else (if chunk > left then left else chunk);
    Wrap(x + c)
  }

  /** The difference that the code computes first is a long. */
  predicate Fits(l: Loop, start: int) {
    IsLong(l.end) && IsLong(start) && IsLong(l.end - start)
  }

  lemma ComputedIs(l: Loop, chunk: int, x: int)
    requires Proper(l) && Left(l, x) >= 0 && Fits(l, x) && ChunkOk(l, x, chunk)
    ensures ComputedEnd(l, chunk, x) == BlockEnd(l, l.chunk, x)
  {
  }

  lemma FitsFurther(l: Loop, start: int, x: int)
    requires Proper(l) && Fits(l, start) && 0 <= Left(l, x) <= Left(l, start)
    ensures Fits(l, x)
  {
  }

  /** The first block is right if and only if the difference is a long; otherwise it is the whole loop. */
  lemma FirstBlockIff(l: Loop, start: int)
    requires Proper(l) && IsLong(l.end) && IsLong(l.chunk) && IsLong(start) && Left(l, start) >= 0
    ensures ComputedEnd(l, l.chunk, start) == BlockEnd(l, l.chunk, start) <==> Fits(l, start)
    ensures !Fits(l, start) ==> ComputedEnd(l, l.chunk, start) == l.end
  {
    if Fits(l, start) {
      ComputedIs(l, l.chunk, start);
    } else {
      WrapFar(l.end - start);
    }
  }

  /** If the chunk size times the step is not a long, the first block is right if and only if what is stored in its place is
      at least the whole loop. */
  lemma ProductIff(start: int, end: int, incr: int, chunkSize: int)
    requires IsLong(start) && IsLong(end) && IsLong(incr) && incr != 0 && 1 <= chunkSize <= LONG_MAX
    requires var l := Init(start, end, incr, chunkSize); Fits(l, start) && Left(l, start) > 0
    ensures var l := Init(start, end, incr, chunkSize);
            ComputedEnd(l, l.chunk, start) == BlockEnd(l, chunkSize * incr, start)
            <==> IsLong(chunkSize * incr) || Width(l) >= Left(l, start)
  {
    assert chunkSize * -incr == -(chunkSize * incr);
    if incr > 0 { MulMonotone(1, chunkSize, incr); } else { MulMonotone(1, chunkSize, -incr); }
    StoredChunk(Init(start, end, incr, chunkSize), chunkSize * incr, start);
  }

  lemma StoredChunk(l: Loop, product: int, start: int)
    requires l.incr != 0 && l.chunk == Wrap(product) && Fits(l, start) && Left(l, start) > 0 && (l.incr > 0 <==> product > 0) && product != 0
    ensures ComputedEnd(l, l.chunk, start) == BlockEnd(l, product, start) <==> IsLong(product) || Width(l) >= Left(l, start)
  {
    var left := l.end - start;
    var c := if l.incr < 0 then (if l.chunk < left then left else l.chunk) else (if l.chunk > left then left else l.chunk);
    assert Wrap(left) == left;
    StoredEnd(start, c, l.end);
  }

  /** Where a block of c from start ends, for a c that may lead the wrong way. */
  lemma StoredEnd(start: int, c: int, end: int)
    requires IsLong(start) && IsLong(c) && IsLong(end) && IsLong(end - start)
    ensures Wrap(start + c) == end <==> c == end - start
  {
  }

  /** With a chunk size of 2^62 and a step of 4 the stored chunk is 0: the locked form hands out empty blocks for ever. */
  lemma EmptyBlocks(end: int, s: State, t: nat)
    requires 0 < end && IsLong(end) && IsLong(s.next) && IsLong(end - s.next) && 0 <= s.next < end && t < |s.locals|
    ensures var l := Init(0, end, 4, 0x4000_0000_0000_0000);
            l.chunk == 0 && CallLocked(l, s, t) == s.(log := s.log + [(s.next, s.next)])
  {
  }

  type Block = (int, int)

  /** The blocks from x to the end. */
  function Tiling(l: Loop, x: int): seq<Block>
    requires Proper(l) && Left(l, x) >= 0
    decreases Left(l, x)
  {
    if x == l.end then [] else [(x, BlockEnd(l, l.chunk, x))] + Tiling(l, BlockEnd(l, l.chunk, x))
  }

  /** Consecutive non-empty blocks from lo to hi. */
  ghost predicate Tiles(l: Loop, s: seq<Block>, lo: int, hi: int) {
    && (s == [] ==> lo == hi)
    && (s != [] ==> s[0].0 == lo && s[|s| - 1].1 == hi)
    && (forall i :: 0 <= i < |s| - 1 ==> s[i].1 == s[i + 1].0)
    && (forall i :: 0 <= i < |s| ==> 0 < Left(l, s[i].0) - Left(l, s[i].1) <= Width(l))
  }

  /** The blocks tile the loop, and all but the last have the full width. */
  lemma {:induction false} TilingTiles(l: Loop, x: int)
    requires Proper(l) && Left(l, x) >= 0
    ensures Tiles(l, Tiling(l, x), x, l.end)
    ensures forall i :: 0 <= i < |Tiling(l, x)| - 1 ==>
              Left(l, Tiling(l, x)[i].0) - Left(l, Tiling(l, x)[i].1) == Width(l)
    decreases Left(l, x)
  {
    if x != l.end {
      var y := BlockEnd(l, l.chunk, x);
      TilingTiles(l, y);
      var s, t := Tiling(l, x), Tiling(l, y);
      assert s == [(x, y)] + t;
      assert t == [] ==> y == l.end;
      assert forall i :: 1 <= i < |s| ==> s[i] == t[i - 1];
    }
  }

  // The three forms as steps of a team.

  datatype Form = Locked | Swap | Add

  /** A thread between calls, after the load of next that precedes a compare-and-swap, or after its first false. */
  datatype Local = Idle | Loaded(start: int, chunk: int) | Stopped

  datatype State = State(form: Form, next: int, log: seq<Block>, locals: seq<Local>)

  datatype Step = Call(t: nat) | Load(t: nat) | TrySwap(t: nat)

  predicate Enabled(s: State, e: Step) {
    e.t < |s.locals| &&
    match e {
      case Call(t) => s.form != Swap && s.locals[t].Idle?
      case Load(t) => s.form == Swap && s.locals[t].Idle?
      case TrySwap(t) => s.form == Swap && s.locals[t].Loaded?
    }
  }

  function SetLocal(s: State, t: nat, v: Local): State
    requires t < |s.locals|
  {
    s.(locals := s.locals[t := v])
  }

  /** gomp_iter_dynamic_next_locked, whole, under the lock. */
  function CallLocked(l: Loop, s: State, t: nat): State
    requires t < |s.locals|
  {
    if s.next == l.end then SetLocal(s, t, Stopped)
    else
      var end := ComputedEnd(l, l.chunk, s.next);
      s.(next := end, log := s.log + [(s.next, end)])
  }

  /** gomp_iter_dynamic_next with mode set: one fetch-and-add; only the block that is returned is clipped. */
  function CallAdd(l: Loop, s: State, t: nat): State
    requires t < |s.locals|
  {
    var tmp, s1 := s.next, s.(next := Wrap(s.next + l.chunk));
    var nend := Wrap(tmp + l.chunk);
    if l.incr > 0 then
      if tmp >= l.end then SetLocal(s1, t, Stopped)
      else s1.(log := s.log + [(tmp, if nend > l.end then l.end else nend)])
    else
      if tmp <= l.end then SetLocal(s1, t, Stopped)
      else s1.(log := s.log + [(tmp, if nend < l.end then l.end else nend)])
  }

  /** One round of the compare-and-swap loop; the chunk, once clipped, stays clipped. */
  function CallSwap(l: Loop, s: State, t: nat): State
    requires t < |s.locals| && s.locals[t].Loaded?
  {
    var start, chunk := s.locals[t].start, s.locals[t].chunk;
    if start == l.end then SetLocal(s, t, Stopped)
    else
      var left := Wrap(l.end - start);
      var c := if l.incr < 0 then (if chunk < left then left else chunk) else (if chunk > left then left else chunk);
      var nend := Wrap(start + c);
      if s.next == start then SetLocal(s.(next := nend, log := s.log + [(start, nend)]), t, Idle)
      else SetLocal(s, t, Loaded(s.next, c))
  }

  function Apply(l: Loop, s: State, e: Step): State
    requires Enabled(s, e)
  {
    match e {
      case Call(t) => if s.form == Locked then CallLocked(l, s, t) else CallAdd(l, s, t)
      case Load(t) => SetLocal(s, t, Loaded(s.next, l.chunk))
      case TrySwap(t) => CallSwap(l, s, t)
    }
  }

  // Invariant.

  /** next, moved back to the end when fetch-and-add has passed it. */
  function Reached(l: Loop, x: int): int {
    if Left(l, x) < 0 then l.end else x
  }

  function Stops(a: seq<Local>): (n: nat)
    ensures n <= |a|
  {
    if a == [] then 0 else (if a[0].Stopped? then 1 else 0) + Stops(a[1..])
  }

  /** A chunk that was clipped at start or before gives, from start on, the same blocks as the full chunk. */
  ghost predicate ChunkOk(l: Loop, start: int, chunk: int) {
    chunk == l.chunk ||
    if l.incr > 0 then l.end - start <= chunk <= l.chunk else l.end - start >= chunk >= l.chunk
  }

  /** The test of gomp_loop_init: with mode set, a fetch-and-add cannot wrap. */
  predicate Mode(l: Loop, nthreads: nat) {
    && nthreads < 0x8000_0000 && 0 <= Width(l) < 0x8000_0000
    && if l.incr > 0 then l.end < LONG_MAX - (nthreads + 1) * l.chunk
       else l.end > (nthreads + 1) * -l.chunk - LONG_MAX
  }

  ghost predicate Inv(l: Loop, start: int, s: State) {
    && Proper(l) && Left(l, start) >= 0 && IsLong(start)
    && Left(l, s.next) <= Left(l, start)
    && s.log + Tiling(l, Reached(l, s.next)) == Tiling(l, start)
    && (s.form != Add ==> Left(l, s.next) >= 0 && Fits(l, start))
    && (s.form == Add ==> Mode(l, |s.locals|) && -Left(l, s.next) < (Stops(s.locals) + 1) * Width(l))
    && (forall t :: 0 <= t < |s.locals| && s.locals[t].Loaded? ==>
          && s.form == Swap && 0 <= Left(l, s.next) <= Left(l, s.locals[t].start) <= Left(l, start)
          && ChunkOk(l, s.locals[t].start, s.locals[t].chunk))
    && (forall t :: 0 <= t < |s.locals| && s.locals[t].Stopped? ==> Left(l, s.next) <= 0)
  }

  ghost predicate Initial(l: Loop, start: int, s: State) {
    && Proper(l) && Left(l, start) >= 0 && s.next == start && s.log == []
    && IsLong(l.end) && IsLong(l.chunk) && IsLong(start)
    && (forall t :: 0 <= t < |s.locals| ==> s.locals[t].Idle?)
    && (s.form == Add ==> Mode(l, |s.locals|))
  }

  lemma InitialInv(l: Loop, start: int, s: State)
    requires Initial(l, start, s) && (s.form != Add ==> Fits(l, start))
    ensures Inv(l, start, s)
  {
    NoStops(s.locals);
  }

  lemma {:induction false} NoStops(a: seq<Local>)
    requires forall t :: 0 <= t < |a| ==> !a[t].Stopped?
    ensures Stops(a) == 0
  {
    if a != [] { NoStops(a[1..]); }
  }

  /** One more stop, and the thread that makes it was not among those before. */
  lemma {:induction false} StopsOne(a: seq<Local>, t: nat)
    requires t < |a| && !a[t].Stopped?
    ensures Stops(a) < |a| && Stops(a[t := Stopped]) == Stops(a) + 1
  {
    var b := a[t := Stopped];
    if t == 0 {
      assert b[1..] == a[1..];
    } else {
      assert b[1..] == a[1..][t - 1 := Stopped];
      StopsOne(a[1..], t - 1);
    }
  }

  lemma LogNext(l: Loop, start: int, log: seq<Block>, x: int)
    requires Proper(l) && 0 < Left(l, x) && Left(l, start) >= 0
    requires log + Tiling(l, x) == Tiling(l, start)
    ensures Left(l, BlockEnd(l, l.chunk, x)) >= 0
    ensures log + [(x, BlockEnd(l, l.chunk, x))] + Tiling(l, BlockEnd(l, l.chunk, x)) == Tiling(l, start)
  {
    var b, rest := (x, BlockEnd(l, l.chunk, x)), Tiling(l, BlockEnd(l, l.chunk, x));
    assert Tiling(l, x) == [b] + rest;
    assert log + [b] + rest == log + ([b] + rest);
  }

  lemma LockedInv(l: Loop, start: int, s: State, t: nat)
    requires Inv(l, start, s) && s.form == Locked && t < |s.locals| && s.locals[t].Idle?
    ensures Inv(l, start, CallLocked(l, s, t))
  {
    hide Tiling, Wrap;
    if s.next != l.end {
      FitsFurther(l, start, s.next);
      ComputedIs(l, l.chunk, s.next);
      LogNext(l, start, s.log, s.next);
    }
  }

  /** Where the fetch-and-add stays, so that neither sum wraps. */
  lemma AddFits(l: Loop, start: int, s: State, t: nat)
    requires Inv(l, start, s) && s.form == Add && t < |s.locals| && s.locals[t].Idle?
    ensures Wrap(s.next + l.chunk) == s.next + l.chunk
    ensures -Left(l, s.next + l.chunk) < (|s.locals| + 1) * Width(l)
  {
    hide Tiling, Stops, Wrap;
    StopsOne(s.locals, t);
    PastEnd(|s.locals|, Stops(s.locals), Width(l), Left(l, s.next));
    ModeFits(l, |s.locals|, start, s.next);
  }

  lemma ModeFits(l: Loop, n: nat, start: int, x: int)
    requires Proper(l) && Mode(l, n) && IsLong(start) && Left(l, x) <= Left(l, start)
    requires -Left(l, x + l.chunk) < (n + 1) * Width(l)
    ensures Wrap(x + l.chunk) == x + l.chunk
  {
    assert (n + 1) * -l.chunk == -((n + 1) * l.chunk);
  }

  lemma PastEnd(n: nat, d: nat, w: int, left: int)
    requires d < n && w > 0 && -left < (d + 1) * w
    ensures w - left < (n + 1) * w
  {
    MulMonotone(d + 1, n, w);
    assert (n + 1) * w == n * w + w;
  }

  lemma Overshoot(left: int, w: int, d: nat)
    requires w > 0 && -left < (d + 1) * w
    ensures left > 0 ==> w - left < (d + 1) * w
    ensures w - left < (d + 2) * w
  {
    assert (d + 2) * w == (d + 1) * w + w;
    MulMonotone(1, d + 1, w);
  }

  lemma AddInv(l: Loop, start: int, s: State, t: nat)
    requires Inv(l, start, s) && s.form == Add && t < |s.locals| && s.locals[t].Idle?
    ensures Inv(l, start, CallAdd(l, s, t))
  {
    AddFits(l, start, s, t);
    if Left(l, s.next) > 0 {
      AddTakes(l, start, s, t);
    } else {
      AddStops(l, start, s, t);
    }
  }

  lemma AddTakes(l: Loop, start: int, s: State, t: nat)
    requires Inv(l, start, s) && s.form == Add && t < |s.locals| && s.locals[t].Idle? && Left(l, s.next) > 0
    requires Wrap(s.next + l.chunk) == s.next + l.chunk
    ensures Inv(l, start, CallAdd(l, s, t))
  {
    Overshoot(Left(l, s.next), Width(l), Stops(s.locals));
    LogNext(l, start, s.log, s.next);
    hide Tiling, Wrap, Mode, Stops;
    assert Reached(l, s.next + l.chunk) == BlockEnd(l, l.chunk, s.next);
  }

  lemma AddStops(l: Loop, start: int, s: State, t: nat)
    requires Inv(l, start, s) && s.form == Add && t < |s.locals| && s.locals[t].Idle? && Left(l, s.next) <= 0
    requires Wrap(s.next + l.chunk) == s.next + l.chunk
    ensures Inv(l, start, CallAdd(l, s, t))
  {
    Overshoot(Left(l, s.next), Width(l), Stops(s.locals));
    StopsOne(s.locals, t);
    hide Tiling, Wrap, Mode, Stops;
    assert Reached(l, s.next + l.chunk) == Reached(l, s.next);
  }

  lemma SwapInv(l: Loop, start: int, s: State, t: nat)
    requires Inv(l, start, s) && s.form == Swap && t < |s.locals| && s.locals[t].Loaded?
    ensures Inv(l, start, CallSwap(l, s, t))
  {
    hide Tiling, Mode, Wrap;
    var x, c := s.locals[t].start, s.locals[t].chunk;
    if x != l.end {
      FitsFurther(l, start, x);
      ComputedIs(l, c, x);
      if s.next == x {
        LogNext(l, start, s.log, x);
      } else {
        ClippedOk(l, x, c, s.next);
      }
    }
  }

  /** A chunk that is clipped at x is good further on. */
  lemma ClippedOk(l: Loop, x: int, chunk: int, y: int)
    requires Proper(l) && ChunkOk(l, x, chunk) && 0 <= Left(l, y) <= Left(l, x) && Fits(l, x)
    ensures var left := Wrap(l.end - x);
            ChunkOk(l, y, if l.incr < 0 then (if chunk < left then left else chunk) else (if chunk > left then left else chunk))
  {
  }

  lemma StepInv(l: Loop, start: int, s: State, e: Step)
    requires Inv(l, start, s) && Enabled(s, e)
    ensures Inv(l, start, Apply(l, s, e))
  {
    match e {
      case Call(t) => if s.form == Locked { LockedInv(l, start, s, t); } else { AddInv(l, start, s, t); }
      case Load(t) => hide Tiling, Mode;
      case TrySwap(t) => SwapInv(l, start, s, t);
    }
  }

  // Runs.

  ghost predicate Leads(l: Loop, s: State, steps: seq<Step>, r: State)
    decreases |steps|
  {
    if steps == [] then r == s else Enabled(s, steps[0]) && Leads(l, Apply(l, s, steps[0]), steps[1..], r)
  }

  lemma {:induction false} RunInv(l: Loop, start: int, s: State, steps: seq<Step>, r: State)
    requires Inv(l, start, s) && Leads(l, s, steps, r)
    ensures Inv(l, start, r) && |r.locals| == |s.locals| && r.form == s.form
    decreases |steps|
  {
    hide Inv, Enabled;
    if steps != [] {
      StepInv(l, start, s, steps[0]);
      SameTeam(l, s, steps[0]);
      hide Apply;
      RunInv(l, start, Apply(l, s, steps[0]), steps[1..], r);
    }
  }

  lemma SameTeam(l: Loop, s: State, e: Step)
    requires Enabled(s, e)
    ensures |Apply(l, s, e).locals| == |s.locals| && Apply(l, s, e).form == s.form
  {
    hide Wrap;
  }

  /** Every form, in every interleaving, hands out the blocks of one and the same tiling of the loop, in order; when
      every thread has had its first false, all of them. */
  lemma SameTiling(l: Loop, start: int, s: State, steps: seq<Step>, r: State)
    requires Initial(l, start, s) && (s.form != Add ==> Fits(l, start)) && Leads(l, s, steps, r)
    ensures r.log <= Tiling(l, start)
    ensures |r.locals| > 0 && (forall t :: 0 <= t < |r.locals| ==> r.locals[t].Stopped?) ==>
              r.log == Tiling(l, start) && Tiles(l, r.log, start, l.end)
  {
    hide Enabled, Leads, Mode, Tiling, Tiles, Inv;
    InitialInv(l, start, s);
    RunInv(l, start, s, steps, r);
    TilingTiles(l, start);
    LogOf(l, start, r);
  }

  lemma LogOf(l: Loop, start: int, r: State)
    requires Inv(l, start, r) && Proper(l) && Left(l, start) >= 0
    ensures r.log <= Tiling(l, start)
    ensures |r.locals| > 0 && r.locals[0].Stopped? ==> r.log == Tiling(l, start)
  {
    hide Mode;
    assert r.log + Tiling(l, Reached(l, r.next)) == Tiling(l, start);
  }

  /** The locked and the compare-and-swap form hand out that tiling in every run if and only if the difference of end and
      start is a long. If it is not, the first call hands out the whole loop. */
  lemma TilingIff(l: Loop, start: int, s: State)
    requires Initial(l, start, s) && s.form != Add && |s.locals| > 0
    ensures (forall steps: seq<Step>, r: State :: Leads(l, s, steps, r) ==> r.log <= Tiling(l, start)) <==> Fits(l, start)
  {
    if Fits(l, start) {
      forall steps: seq<Step>, r: State | Leads(l, s, steps, r) ensures r.log <= Tiling(l, start) {
        SameTiling(l, start, s, steps, r);
      }
    } else {
      FirstBlockIff(l, start);
      var steps, r := FirstCall(l, start, s);
      assert !(r.log <= Tiling(l, start)) by {
        assert r.log[0] == (start, l.end) && Tiling(l, start)[0] == (start, BlockEnd(l, l.chunk, start));
      }
    }
  }

  /** One thread calls, and nobody comes between. */
  lemma FirstCall(l: Loop, start: int, s: State) returns (steps: seq<Step>, r: State)
    requires Initial(l, start, s) && s.form != Add && |s.locals| > 0 && start != l.end
    ensures Leads(l, s, steps, r) && r.log == [(start, ComputedEnd(l, l.chunk, start))]
  {
    hide Wrap;
    if s.form == Locked {
      r := Apply(l, s, Call(0));
      steps := [Call(0)];
      LeadsOne(l, s, Call(0));
    } else {
      var s1 := Apply(l, s, Load(0));
      assert Enabled(s1, TrySwap(0));
      r := Apply(l, s1, TrySwap(0));
      steps := [Load(0), TrySwap(0)];
      LeadsOne(l, s1, TrySwap(0));
      assert steps[1..] == [TrySwap(0)];
    }
  }

  lemma LeadsOne(l: Loop, s: State, e: Step)
    requires Enabled(s, e)
    ensures Leads(l, s, [e], Apply(l, s, e))
  {
    assert [e][1..] == [];
  }

  /** A loop as gomp_loop_init sets it up, whose chunk in units of the loop variable is a long or, wrapped, is still at least
      the whole loop. */
  lemma FromInit(start: int, end: int, incr: int, chunkSize: int, s: State, steps: seq<Step>, r: State)
    requires IsLong(start) && IsLong(end) && incr != 0 && chunkSize >= 1
    requires var l := Init(start, end, incr, chunkSize); IsLong(chunkSize * incr) || Width(l) >= Left(l, start) > 0
    requires s.next == start && s.log == [] && |s.locals| > 0 && forall t :: 0 <= t < |s.locals| ==> s.locals[t].Idle?
    requires var l := Init(start, end, incr, chunkSize);
             (if s.form == Add then Mode(l, |s.locals|) else Fits(l, start)) && Leads(l, s, steps, r)
    ensures var l := Init(start, end, incr, chunkSize);
            && Proper(l) && Left(l, start) >= 0 && l.end == (if Ahead(start, end, incr) then end else start)
            && r.log <= Tiling(l, start) && (!Ahead(start, end, incr) ==> r.log == [])
            && ((forall t :: 0 <= t < |r.locals| ==> r.locals[t].Stopped?) && |r.locals| > 0 ==> Tiles(l, r.log, start, l.end))
  {
    hide Leads, Tiling, Tiles, Mode;
    if IsLong(chunkSize * incr) { InitProper(start, end, incr, chunkSize); }
    EmptyTiling(Init(start, end, incr, chunkSize), start);
    SameTiling(Init(start, end, incr, chunkSize), start, s, steps, r);
  }

  lemma EmptyTiling(l: Loop, x: int)
    requires Proper(l) && Left(l, x) >= 0
    ensures x == l.end ==> Tiling(l, x) == []
  {
  }

  /** With mode set, next passes the end by less than the chunks of the team and one more, and never wraps: what is
      added to it is the chunk, exactly. */
  lemma NoWrap(l: Loop, start: int, s: State, steps: seq<Step>, r: State, t: nat)
    requires Initial(l, start, s) && s.form == Add && Leads(l, s, steps, r)
    requires Enabled(r, Call(t))
    ensures Apply(l, r, Call(t)).next == r.next + l.chunk
    ensures -Left(l, Apply(l, r, Call(t)).next) < (|s.locals| + 1) * Width(l)
  {
    InitialInv(l, start, s);
    RunInv(l, start, s, steps, r);
    AddFits(l, start, r, t);
  }

  // The routines of iter.c.

  datatype Result = Nothing | Some(block: Block)

  /** The work share: what the calling thread returns, and what it stores in next. */
  class Share {
    const loop: Loop
    var next: int

    /** gomp_loop_init. */
    constructor (start: int, end: int, incr: int, chunkSize: int)
      ensures loop == Init(start, end, incr, chunkSize) && next == start
    {
      loop := Init(start, end, incr, chunkSize);
      next := start;
    }

    /** gomp_iter_dynamic_next_locked. */
    method NextLocked(ghost s: State, ghost t: nat) returns (r: Result)
      requires t < |s.locals| && s.form == Locked && s.next == next
      modifies this`next
      ensures next == CallLocked(loop, s, t).next
      ensures r.Nothing? ==> CallLocked(loop, s, t) == SetLocal(s, t, Stopped)
      ensures r.Some? ==> CallLocked(loop, s, t) == s.(next := next, log := s.log + [r.block])
    {
      var start := next;
      if start == loop.end {
        return Nothing;
      }
      var chunk, left := loop.chunk, Wrap(loop.end - start);
      if loop.incr < 0 {
        if chunk < left {
          chunk := left;
        }
      } else {
        if chunk > left {
          chunk := left;
        }
      }
      var end := Wrap(start + chunk);
      next := end;
      return Some((start, end));
    }

    /** __sync_fetch_and_add on next. */
    method FetchAndAdd(x: int) returns (was: int)
      modifies this`next
      ensures was == old(next) && next == Wrap(old(next) + x)
    {
      was := next;
      next := Wrap(next + x);
    }

    /** gomp_iter_dynamic_next with mode set. */
    method NextAdd(ghost s: State, ghost t: nat) returns (r: Result)
      requires t < |s.locals| && s.form == Add && s.next == next
      modifies this`next
      ensures next == CallAdd(loop, s, t).next
      ensures r.Nothing? ==> CallAdd(loop, s, t) == SetLocal(s, t, Stopped).(next := next)
      ensures r.Some? ==> CallAdd(loop, s, t) == s.(next := next, log := s.log + [r.block])
    {
      hide Wrap;
      var tmp := FetchAndAdd(loop.chunk);
      var nend: int;
      if loop.incr > 0 {
        if tmp >= loop.end {
          return Nothing;
        }
        nend := Wrap(tmp + loop.chunk);
        if nend > loop.end {
          nend := loop.end;
        }
      } else {
        if tmp <= loop.end {
          return Nothing;
        }
        nend := Wrap(tmp + loop.chunk);
        if nend < loop.end {
          nend := loop.end;
        }
      }
      return Some((tmp, nend));
    }

    /** The other threads of the team allocate any number of blocks, or none. */
    method Interfere()
      requires Proper(loop) && Left(loop, next) >= 0
      modifies this`next
      ensures 0 <= Left(loop, next) <= Left(loop, old(next))
    {
      var x :| 0 <= Left(loop, x) <= Left(loop, next);
      next := x;
    }

    /** __sync_val_compare_and_swap on next. */
    method CompareAndSwap(expected: int, value: int) returns (seen: int)
      modifies this`next
      ensures seen == old(next) && next == if seen == expected then value else seen
    {
      seen := next;
      if seen == expected {
        next := value;
      }
    }

    /** gomp_iter_dynamic_next with mode clear: whatever the other threads do between the load and the swap, the block
        returned is the one that starts where next was when the swap succeeded. */
    method NextSwap() returns (r: Result)
      requires Proper(loop) && Left(loop, next) >= 0 && Fits(loop, next)
      modifies this`next
      ensures 0 <= Left(loop, next) <= Left(loop, old(next))
      ensures r.Nothing? ==> next == loop.end
      ensures r.Some? ==> next == r.block.1 == BlockEnd(loop, loop.chunk, r.block.0)
      ensures r.Some? ==> Left(loop, next) < Left(loop, r.block.0) <= Left(loop, old(next))
    {
      hide Wrap;
      var chunk, start := loop.chunk, next;
      while true
        invariant 0 <= Left(loop, next) <= Left(loop, start) <= Left(loop, old(next))
        invariant ChunkOk(loop, start, chunk)
        decreases Left(loop, start)
      {
        FitsFurther(loop, old(next), start);
        ComputedIs(loop, chunk, start);
        var left := Wrap(loop.end - start);
        if start == loop.end {
          return Nothing;
        }
        if loop.incr < 0 {
          if chunk < left {
            chunk := left;
          }
        } else {
          if chunk > left {
            chunk := left;
          }
        }
        var nend := Wrap(start + chunk);
        Interfere();
        var tmp := CompareAndSwap(start, nend);
        if tmp == start {
          return Some((start, nend));
        }
        start := tmp;
      }
    }
  }
}
