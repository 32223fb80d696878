/** Where the threads of a team are placed: the close and spread policies over a partition of places. */
module Placement {
  import opened Arithmetic

  // Closed forms, relative to the start of the partition: len places, the master at d0, n threads.

  /** The place of thread i under close, and under spread with more threads than places: n / len threads on every place in
      turn, then the rest one by one. */
  function CloseAt(n: nat, len: nat, d0: nat, i: nat): (d: nat)
    requires len > 0
    ensures d < len
  {
    if n <= len then (d0 + i) % len else RoundAt(len, PerPlace(n, len), d0, i)
  }

  function RoundAt(len: nat, s: nat, d0: nat, i: nat): (d: nat)
    requires len > 0 && s > 0
    ensures d < len
  {
    if i < len * s then (DivMonotone(0, i, s); (d0 + i / s) % len) else (d0 + (i - len * s)) % len
  }

  /** How many threads are placed together while every place gets some. */
  function PerPlace(n: nat, len: nat): (s: nat)
    requires 0 < len
    ensures len < n ==> s >= 1 && len * s <= n
  {
    if len < n then
      DivMonotone(len, n, len);
      DivUnique(len, len, 1, 0);
      assert n == n / len * len + n % len;
      n / len
    else 1
  }

  /** Under spread with enough places, sub-partition b of n: the first len % n of them have one place more. */
  function BlockStart(n: nat, len: nat, b: nat): (d: nat)
    requires n > 0
  {
    var s, r := len / n, len % n;
    MulNonNegative(b, s);
    b * s + if b < r then b else r
  }

  function BlockLen(n: nat, len: nat, b: nat): (l: nat)
    requires n > 0
  {
    DivMonotone(0, len, n);
    len / n + if b < len % n then 1 else 0
  }

  /** The sub-partition that place d is in. */
  function BlockOf(n: nat, len: nat, d: nat): nat
    requires 0 < n <= len
  {
    var s, r := len / n, len % n;
    SpreadSize(n, len);
    MulNonNegative(r, s + 1);
    if d < r * (s + 1) then (DivMonotone(0, d, s + 1); d / (s + 1))
    else (DivMonotone(0, d - r * (s + 1), s); r + (d - r * (s + 1)) / s)
  }

  lemma SpreadSize(n: nat, len: nat)
    requires 0 < n <= len
    ensures len / n >= 1 && len == len / n * n + len % n
  {
    DivMonotone(n, len, n);
    DivUnique(n, n, 1, 0);
  }

  lemma BlockNext(n: nat, len: nat, b: nat)
    requires n > 0
    ensures BlockStart(n, len, b + 1) == BlockStart(n, len, b) + BlockLen(n, len, b)
    ensures BlockStart(n, len, 0) == 0 && BlockStart(n, len, n) == len
  {
    var s := len / n;
    assert (b + 1) * s == b * s + s;
    assert len == s * n + len % n && n * s == s * n;
  }

  lemma {:induction false} BlockMonotone(n: nat, len: nat, a: nat, b: nat)
    requires 0 < n <= len && a <= b
    ensures BlockStart(n, len, a) + (b - a) <= BlockStart(n, len, b)
    decreases b - a
  {
    if a < b {
      SpreadSize(n, len);
      BlockNext(n, len, a);
      BlockMonotone(n, len, a + 1, b);
    }
  }

  /** The sub-partitions are disjoint, cover the partition, and differ in size by at most one place. */
  lemma BlocksTile(n: nat, len: nat, d: nat, b: nat)
    requires 0 < n <= len && d < len
    ensures BlockOf(n, len, d) < n
    ensures BlockStart(n, len, b) <= d < BlockStart(n, len, b) + BlockLen(n, len, b) <==> b == BlockOf(n, len, d)
    ensures len / n <= BlockLen(n, len, b) <= len / n + 1
  {
    var c := BlockOf(n, len, d);
    BlockOfIn(n, len, d);
    BlockNext(n, len, c);
    BlockNext(n, len, b);
    if c >= n { BlockMonotone(n, len, n, c); }
    if b < c { BlockMonotone(n, len, b + 1, c); } else if c < b { BlockMonotone(n, len, c + 1, b); }
    hide BlockOf, BlockStart, BlockLen;
  }

  lemma LowBlock(d: nat, s: nat, r: nat)
    requires d < r * (s + 1)
    ensures var c := d / (s + 1); 0 <= c < r && c * s + c == d - d % (s + 1)
  {
    var c := d / (s + 1);
    DivMonotone(0, d, s + 1);
    assert d == c * (s + 1) + d % (s + 1) && c * (s + 1) == c * s + c;
    if c >= r { MulMonotone(r, c, s + 1); }
  }

  lemma HighBlock(d: nat, s: nat, r: nat)
    requires s > 0 && r * (s + 1) <= d
    ensures var q := (d - r * (s + 1)) / s; 0 <= q && (r + q) * s + r == d - (d - r * (s + 1)) % s
  {
    var e := d - r * (s + 1);
    var q := e / s;
    DivMonotone(0, e, s);
    assert e == q * s + e % s;
    assert (r + q) * s == r * s + q * s && r * (s + 1) == r * s + r;
  }

  /** The place is in the sub-partition found for it; the distance to the start is the remainder that the code uses. */
  lemma BlockOfIn(n: nat, len: nat, d: nat)
    requires 0 < n <= len && d < len
    ensures var s, r, c := len / n, len % n, BlockOf(n, len, d);
            && s >= 1 && r * (s + 1) >= 0
            && (d < r * (s + 1) <==> c < r)
            && BlockStart(n, len, c) == d - (if c < r then d % (s + 1) else (d - r * (s + 1)) % s)
            && BlockStart(n, len, c) <= d < BlockStart(n, len, c) + BlockLen(n, len, c)
  {
    SpreadSize(n, len);
    var s, r := len / n, len % n;
    MulNonNegative(r, s + 1);
    if d < r * (s + 1) {
      LowBlock(d, s, r);
    } else {
      HighBlock(d, s, r);
    }
  }

  // The counters of gomp_team_start.

  datatype Bind = Close | Spread

  /** The running variables p, k, s and rest, for a team of n threads whose master is on place p0 (numbered from 0) of a
      partition of len places from off. The partition fields are those of the thread that is placed. */
  class Placer {
    const bind: Bind
    const n: nat
    const off: nat
    const len: nat
    const p0: nat
    var p: nat
    var k: nat
    var s: nat
    var rest: nat
    var partOff: nat
    var partLen: nat

    predicate Proper() {
      n > 1 && off <= p0 < off + len
    }

    /** The state when thread i has been placed one place after another, n / len threads on each while they last. */
    ghost predicate AtClose(i: nat)
      reads this
      requires Proper() && i < n
    {
      && p == off + CloseAt(n, len, p0 - off, i)
      && rest == (if n > len then n % len else 0)
      && (if n <= len then s == 1 && k == 1
          else if i < len * PerPlace(n, len) then s == PerPlace(n, len) && k == i % s + 1
          else s == 1 && k == 1)
      && (if bind == Spread then partOff == p && partLen == 1 else partOff == off && partLen == len)
    }

    /** The state when thread i has been placed at the start of a sub-partition. */
    ghost predicate AtSpread(i: nat)
      reads this
      requires Proper() && n <= len && i < n
    {
      var b := (BlockOf(n, len, p0 - off) + i) % n;
      && k == 0 && s == len / n && rest == (len % n) * (s + 1) + off
      && b >= 0 && p == off + BlockStart(n, len, b) && partOff == p && partLen == BlockLen(n, len, b)
    }

    ghost predicate At(i: nat)
      reads this
      requires Proper() && i < n
    {
      if bind == Close || n > len then AtClose(i) else AtSpread(i)
    }

    /** The switch before the loops: the master's own sub-partition, and the counters. */
    constructor (policy: Bind, nthreads: nat, offset: nat, length: nat, place: nat)
      requires nthreads > 1 && offset <= place < offset + length
      ensures bind == policy && n == nthreads && off == offset && len == length && p0 == place
      ensures Proper() && At(0)
    {
      bind, n, off, len, p0 := policy, nthreads, offset, length, place;
      p, k, s, rest, partOff, partLen := place, 0, 0, 0, offset, length;
      new;
      hide AtClose, AtSpread;
      if bind == Close {
        InitClose();
      } else if n <= len {
        InitSpread();
      } else {
        InitPacked();
      }
    }

    /** Close. */
    method InitClose()
      requires Proper() && bind == Close && p == p0 && rest == 0 && partOff == off && partLen == len
      modifies this`s, this`rest, this`k
      ensures AtClose(0)
    {
      First(n, len, p0 - off);
      hide CloseAt, PerPlace;
      if n > len {
        s := n / len;
        rest := n % len;
      } else {
        s := 1;
      }
      k := 1;
    }

    /** Spread with more threads than places. */
    method InitPacked()
      requires Proper() && bind == Spread && n > len && p == p0
      modifies this`s, this`rest, this`k, this`partOff, this`partLen
      ensures AtClose(0)
    {
      First(n, len, p0 - off);
      hide CloseAt, PerPlace;
      s := n / len;
      rest := n % len;
      partOff := p;
      partLen := 1;
      k := 1;
    }

    /** Spread with enough places: the master's sub-partition is the one its place is in. */
    method InitSpread()
      requires Proper() && bind == Spread && n <= len && p == p0 && k == 0
      modifies this`s, this`rest, this`p, this`partOff, this`partLen
      ensures AtSpread(0)
    {
      hide BlockOf, BlockStart, BlockLen;
      First(n, len, p0 - off);
      ghost var b, start, size := MasterBlock(n, len, p0 - off);
      s := len / n;
      rest := len % n;
      rest := (s + 1) * rest + off;
      if p < rest {
        p := p - (p - off) % (s + 1);
        partLen := s + 1;
      } else {
        p := p - (p - rest) % s;
        partLen := s;
      }
      partOff := p;
    }

    lemma Master()
      requires Proper() && At(0)
      ensures ThreadAt(bind, n, off, len, p0, 0, p0, partOff, partLen)
    {
      First(n, len, p0 - off);
      if n <= len {
        BlockOfIn(n, len, p0 - off);
        BlocksTile(n, len, p0 - off, 0);
      }
      hide CloseAt, BlockOf, BlockStart, BlockLen, PerPlace;
    }

    lemma Other(i: nat)
      requires Proper() && 0 < i < n && At(i)
      ensures ThreadAt(bind, n, off, len, p0, i, p, partOff, partLen)
    {
      hide CloseAt, BlockOf, BlockStart, BlockLen, PerPlace;
    }

    /** p moves to the next place of the partition, from the last to the first. */
    method Advance(step: nat)
      modifies this`p
      ensures p == if old(p) + step == off + len then off else old(p) + step
    {
      p := p + step;
      if p == off + len {
        p := off;
      }
    }

    /** One round of the loop, for thread i: the same counters in the loop over idle threads and in the loop over new
        ones. */
    method Next(i: nat)
      requires Proper() && 0 < i < n && At(i - 1)
      modifies this`p, this`k, this`s, this`partOff, this`partLen
      ensures At(i)
    {
      CloseCounter(i);
      if bind == Close {
        NextClose(i);
      } else if k == 0 {
        NextSpread(i);
      } else {
        NextClose(i);
      }
    }

    lemma CloseCounter(i: nat)
      requires Proper() && 0 < i < n && At(i - 1)
      ensures k == 0 <==> !(bind == Close || n > len)
    {
      hide CloseAt, BlockOf, BlockStart, BlockLen;
      if n > len && i - 1 < len * PerPlace(n, len) { assert (i - 1) % s >= 0; }
    }

    method NextClose(i: nat)
      requires Proper() && 0 < i < n && AtClose(i - 1) && (bind == Spread ==> n > len)
      modifies this`p, this`k, this`s, this`partOff, this`partLen
      ensures AtClose(i)
    {
      hide CloseAt, PerPlace;
      CloseNext(n, len, p0 - off, i);
      if k == s {
        Advance(1);
        k := 1;
        if i == n - rest {
          s := 1;
        }
      } else {
        k := k + 1;
      }
      if bind == Spread {
        partOff := p;
        partLen := 1;
      }
    }

    method NextSpread(i: nat)
      requires Proper() && n <= len && 0 < i < n && AtSpread(i - 1)
      modifies this`p, this`k, this`s, this`partOff, this`partLen
      ensures AtSpread(i)
    {
      hide BlockOf, BlockStart;
      BlocksTile(n, len, p0 - off, 0);
      SpreadNext(n, len, BlockOf(n, len, p0 - off), i);
      if p < rest {
        Advance(s + 1);
      } else {
        Advance(s);
      }
      partOff := p;
      if p < rest {
        partLen := s + 1;
      } else {
        partLen := s;
      }
    }
  }

  /** The place of thread i, for every i but the master's 0 under spread, which keeps its own place. */
  function PlaceOf(policy: Bind, n: nat, off: nat, len: nat, p0: nat, i: nat): int
    requires n > 1 && off <= p0 < off + len
  {
    if policy == Close || n > len then off + CloseAt(n, len, p0 - off, i)
    else
      BlocksTile(n, len, p0 - off, 0);
      var b := (BlockOf(n, len, p0 - off) + i) % n;
      if b >= 0 then off + BlockStart(n, len, b) else off
  }

  /** Place d is in the sub-partition of thread i. */
  predicate Holds(offs: seq<nat>, lens: seq<nat>, i: nat, d: nat)
    requires i < |offs| == |lens|
  {
    offs[i] <= d < offs[i] + lens[i]
  }

  /** What thread i is given: its place, and its sub-partition of the parent partition. */
  ghost predicate ThreadAt(policy: Bind, n: nat, off: nat, len: nat, p0: nat, i: nat, place: nat, po: nat, pl: nat)
    requires n > 1 && off <= p0 < off + len
  {
    && (if i == 0 then place == p0 else place == PlaceOf(policy, n, off, len, p0, i))
    && (policy == Close ==> po == off && pl == len)
    && (policy == Spread && n > len ==> po == place && pl == 1)
    && (policy == Spread && n <= len ==>
          && SubIs(n, off, len, p0, i, po, pl)
          && if i == 0 then po <= place < po + pl else po == place)
  }

  /** Thread i has the sub-partition that is i after the master's. */
  ghost predicate SubIs(n: nat, off: nat, len: nat, p0: nat, i: nat, po: nat, pl: nat)
    requires 1 < n <= len && off <= p0
  {
    var b := (BlockOf(n, len, p0 - off) + i) % n;
    b >= 0 && po == off + BlockStart(n, len, b) && pl == BlockLen(n, len, b)
  }

  /** Place d is in the sub-partition of exactly one thread. */
  ghost predicate OneHolder(offs: seq<nat>, lens: seq<nat>, d: nat)
    requires |offs| == |lens|
  {
    exists i: nat :: i < |offs| && Holds(offs, lens, i, d) && forall j: nat :: j < |offs| && Holds(offs, lens, j, d) ==> j == i
  }

  /** Every place of the parent partition is in the sub-partition of exactly one thread, no other place is in any, and two
      sub-partitions differ by at most one place. */
  ghost predicate TileParent(off: nat, len: nat, offs: seq<nat>, lens: seq<nat>)
    requires |offs| == |lens|
  {
    && (forall d: nat :: off <= d < off + len ==> OneHolder(offs, lens, d))
    && (forall i: nat, d: nat :: i < |offs| && Holds(offs, lens, i, d) ==> off <= d < off + len)
    && (forall i: nat, j: nat :: i < |lens| && j < |lens| ==> lens[i] <= lens[j] + 1)
  }

  lemma SpreadTiles(n: nat, off: nat, len: nat, p0: nat, offs: seq<nat>, lens: seq<nat>)
    requires 1 < n <= len && off <= p0 < off + len && |offs| == |lens| == n
    requires forall i: nat :: i < n ==> SubIs(n, off, len, p0, i, offs[i], lens[i])
    ensures TileParent(off, len, offs, lens)
  {
    hide BlockOf, BlockStart, BlockLen;
    BlocksTile(n, len, p0 - off, 0);
    var b0 := BlockOf(n, len, p0 - off);
    forall d: nat | off <= d < off + len ensures OneHolder(offs, lens, d) {
      HolderOf(n, off, len, p0, offs, lens, d);
    }
    forall i: nat, d: nat | i < n && Holds(offs, lens, i, d) ensures off <= d < off + len {
      assert SubIs(n, off, len, p0, i, offs[i], lens[i]);
      BlockInside(n, len, (b0 + i) % n);
    }
    forall i: nat, j: nat | i < n && j < n ensures lens[i] <= lens[j] + 1 {
      assert SubIs(n, off, len, p0, i, offs[i], lens[i]) && SubIs(n, off, len, p0, j, offs[j], lens[j]);
      BlocksTile(n, len, 0, (b0 + i) % n);
      BlocksTile(n, len, 0, (b0 + j) % n);
    }
  }

  lemma HolderOf(n: nat, off: nat, len: nat, p0: nat, offs: seq<nat>, lens: seq<nat>, d: nat)
    requires 1 < n <= len && off <= p0 < off + len && |offs| == |lens| == n && off <= d < off + len
    requires forall i: nat :: i < n ==> SubIs(n, off, len, p0, i, offs[i], lens[i])
    ensures OneHolder(offs, lens, d)
  {
    hide BlockOf, BlockStart, BlockLen;
    BlocksTile(n, len, p0 - off, 0);
    var b0 := BlockOf(n, len, p0 - off);
    var i := SpreadCovers(n, len, b0, d - off);
    forall j: nat | j < n ensures Holds(offs, lens, j, d) <==> j == i {
      assert SubIs(n, off, len, p0, j, offs[j], lens[j]);
      assert Holds(offs, lens, j, d) <==> InSub(n, len, b0, j, d - off);
    }
    assert Holds(offs, lens, i, d);
  }

  lemma BlockInside(n: nat, len: nat, b: nat)
    requires 0 < n <= len && b < n
    ensures BlockStart(n, len, b) + BlockLen(n, len, b) <= len
  {
    hide BlockStart, BlockLen;
    BlockNext(n, len, b);
    BlockMonotone(n, len, b + 1, n);
  }

  /** The place after p in the partition, from the last to the first. */
  function NextPlace(off: nat, len: nat, p: nat): nat {
    if p + 1 == off + len then off else p + 1
  }

  /** The order under close, and under spread with more threads than places: one place after the other from the master's on. With
      more threads than places the first n / len threads stay on one place, and the next ones on the next, until every place
      has n / len; the rest again go one by one. */
  ghost predicate InTurn(n: nat, off: nat, len: nat, places: seq<nat>)
    requires len > 0 && |places| == n
  {
    forall i: nat :: 1 <= i < n ==> TurnAt(n, off, len, places, i)
  }

  predicate TurnAt(n: nat, off: nat, len: nat, places: seq<nat>, i: nat)
    requires len > 0 && |places| == n && 1 <= i < n
  {
    var s := n / len;
    DivMonotone(len, if n > len then n else len, len);
    DivUnique(len, len, 1, 0);
    places[i] == if n <= len || i >= len * s || i % s == 0 then NextPlace(off, len, places[i - 1]) else places[i - 1]
  }

  /** The order under spread with enough places: each sub-partition starts where that of the thread before ends, around the
      partition, and those nearer to its start are not smaller. */
  ghost predicate SubsInTurn(off: nat, len: nat, offs: seq<nat>, lens: seq<nat>)
    requires |offs| == |lens|
  {
    && (forall i: nat :: 1 <= i < |offs| ==>
          offs[i] == if offs[i - 1] + lens[i - 1] == off + len then off else offs[i - 1] + lens[i - 1])
    && (forall i: nat, j: nat :: i < |offs| && j < |offs| && offs[i] <= offs[j] ==> lens[i] >= lens[j])
  }

  lemma CloseTurn(n: nat, len: nat, d0: nat, i: nat)
    requires 0 < len && d0 < len && 0 < i < n
    ensures var s, c, d := n / len, CloseAt(n, len, d0, i - 1), CloseAt(n, len, d0, i);
            && (n > len ==> s > 0)
            && d == if n <= len || i >= len * s || i % s == 0 then NextPlace(0, len, c) else c
  {
    CloseNext(n, len, d0, i);
    hide CloseAt;
    if n > len {
      var s := PerPlace(n, len);
      hide PerPlace;
      if i - 1 < len * s && (i - 1) % s + 1 == s { RoundNext(i - 1, s, len); } else { DivMonotone(0, i - 1, s); }
    }
  }

  lemma PlacesInTurn(policy: Bind, n: nat, off: nat, len: nat, p0: nat, places: seq<nat>)
    requires n > 1 && off <= p0 < off + len && |places| == n && (policy == Close || n > len) && places[0] == p0
    requires forall i :: 1 <= i < n ==> places[i] == PlaceOf(policy, n, off, len, p0, i)
    ensures InTurn(n, off, len, places)
  {
    hide CloseAt;
    First(n, len, p0 - off);
    forall i: nat | 1 <= i < n
      ensures TurnAt(n, off, len, places, i)
    {
      CloseTurn(n, len, p0 - off, i);
    }
  }

  lemma SubsAreInTurn(n: nat, off: nat, len: nat, p0: nat, offs: seq<nat>, lens: seq<nat>)
    requires 1 < n <= len && off <= p0 < off + len && |offs| == |lens| == n
    requires forall i: nat :: i < n ==> SubIs(n, off, len, p0, i, offs[i], lens[i])
    ensures SubsInTurn(off, len, offs, lens)
  {
    hide BlockOf, BlockStart, BlockLen;
    BlocksTile(n, len, p0 - off, 0);
    var b0 := BlockOf(n, len, p0 - off);
    forall i: nat | 1 <= i < n
      ensures offs[i] == if offs[i - 1] + lens[i - 1] == off + len then off else offs[i - 1] + lens[i - 1]
    {
      assert SubIs(n, off, len, p0, i - 1, offs[i - 1], lens[i - 1]) && SubIs(n, off, len, p0, i, offs[i], lens[i]);
      SpreadNext(n, len, b0, i);
    }
    forall i: nat, j: nat | i < n && j < n && offs[i] <= offs[j] ensures lens[i] >= lens[j] {
      assert SubIs(n, off, len, p0, i, offs[i], lens[i]) && SubIs(n, off, len, p0, j, offs[j], lens[j]);
      LargerFirst(n, len, (b0 + i) % n, (b0 + j) % n);
    }
  }

  lemma LargerFirst(n: nat, len: nat, a: nat, b: nat)
    requires 0 < n <= len && BlockStart(n, len, a) <= BlockStart(n, len, b)
    ensures BlockLen(n, len, a) >= BlockLen(n, len, b)
  {
    hide BlockStart;
    if b < a { BlockMonotone(n, len, b, a); }
  }

  /** The loops of gomp_team_start over all threads of the team: the place of every thread, and its sub-partition. */
  method PlaceTeam(policy: Bind, n: nat, off: nat, len: nat, p0: nat)
    returns (places: array<nat>, offs: array<nat>, lens: array<nat>)
    requires n > 1 && off <= p0 < off + len
    ensures places.Length == offs.Length == lens.Length == n && places[0] == p0
    ensures forall i :: 1 <= i < n ==> places[i] == PlaceOf(policy, n, off, len, p0, i)
    ensures policy == Close ==> forall i :: 0 <= i < n ==> offs[i] == off && lens[i] == len
    ensures policy == Spread ==> Holds(offs[..], lens[..], 0, p0) && forall i :: 1 <= i < n ==> offs[i] == places[i]
    ensures policy == Spread && n > len ==> forall i :: 0 <= i < n ==> lens[i] == 1
    ensures policy == Spread && n <= len ==> TileParent(off, len, offs[..], lens[..]) && SubsInTurn(off, len, offs[..], lens[..])
    ensures policy == Close || n > len ==> InTurn(n, off, len, places[..])
  {
    hide ThreadAt, PlaceOf, SubIs, TileParent, Holds, InTurn, SubsInTurn, Placer.At, Placer.AtClose, Placer.AtSpread;
    places, offs, lens := new nat[n](_ => 0), new nat[n](_ => 0), new nat[n](_ => 0);
    var placer: Placer := new Placer(policy, n, off, len, p0);
    places[0], offs[0], lens[0] := p0, placer.partOff, placer.partLen;
    placer.Master();
    var i := 1;
    while i < n
      invariant 1 <= i <= n && placer.Proper() && placer.At(i - 1)
      invariant forall j :: 0 <= j < i ==> ThreadAt(policy, n, off, len, p0, j, places[j], offs[j], lens[j])
      modifies places, offs, lens, placer`p, placer`k, placer`s, placer`partOff, placer`partLen
    {
      placer.Next(i);
      placer.Other(i);
      places[i], offs[i], lens[i] := placer.p, placer.partOff, placer.partLen;
      i := i + 1;
    }
    TeamPlaced(policy, n, off, len, p0, places[..], offs[..], lens[..]);
  }

  lemma TeamPlaced(policy: Bind, n: nat, off: nat, len: nat, p0: nat, places: seq<nat>, offs: seq<nat>, lens: seq<nat>)
    requires n > 1 && off <= p0 < off + len && |places| == |offs| == |lens| == n
    requires forall j: nat :: j < n ==> ThreadAt(policy, n, off, len, p0, j, places[j], offs[j], lens[j])
    ensures places[0] == p0 && forall i :: 1 <= i < n ==> places[i] == PlaceOf(policy, n, off, len, p0, i)
    ensures policy == Close ==> forall i :: 0 <= i < n ==> offs[i] == off && lens[i] == len
    ensures policy == Spread ==> Holds(offs, lens, 0, p0) && forall i :: 1 <= i < n ==> offs[i] == places[i]
    ensures policy == Spread && n > len ==> forall i :: 0 <= i < n ==> lens[i] == 1
    ensures policy == Spread && n <= len ==> TileParent(off, len, offs, lens) && SubsInTurn(off, len, offs, lens)
    ensures policy == Close || n > len ==> InTurn(n, off, len, places)
  {
    hide PlaceOf, SubIs, TileParent, InTurn, SubsInTurn;
    assert ThreadAt(policy, n, off, len, p0, 0, places[0], offs[0], lens[0]);
    if policy == Spread && n <= len {
      SpreadTiles(n, off, len, p0, offs, lens);
      SubsAreInTurn(n, off, len, p0, offs, lens);
    }
    if policy == Close || n > len {
      PlacesInTurn(policy, n, off, len, p0, places);
    }
  }

  /** The master's sub-partition, in the terms of the code. */
  lemma MasterBlock(n: nat, len: nat, d0: nat) returns (b: nat, start: nat, size: nat)
    requires 1 < n <= len && d0 < len
    ensures b == BlockOf(n, len, d0) < n && start == BlockStart(n, len, b) && size == BlockLen(n, len, b)
    ensures var s, r := len / n, len % n;
            && s >= 1 && 0 <= r * (s + 1) == (s + 1) * r
            && (if d0 < (s + 1) * r then start == d0 - d0 % (s + 1) && size == s + 1
                else start == d0 - (d0 - (s + 1) * r) % s && size == s)
  {
    hide BlockOf, BlockStart;
    BlockOfIn(n, len, d0);
    BlocksTile(n, len, d0, 0);
    b := BlockOf(n, len, d0);
    start, size := BlockStart(n, len, b), BlockLen(n, len, b);
    Commute(len / n + 1, len % n);
  }

  lemma Commute(a: int, b: int)
    ensures a * b == b * a
  {
  }

  lemma First(n: nat, len: nat, d0: nat)
    requires d0 < len && n > 1
    ensures CloseAt(n, len, d0, 0) == d0
    ensures len < n ==> PerPlace(n, len) == n / len >= 1 && 0 < len * PerPlace(n, len) && 0 % PerPlace(n, len) == 0
    ensures n <= len ==> (BlockOf(n, len, d0) + 0) % n == BlockOf(n, len, d0)
  {
    DivUnique(d0, len, 0, d0);
    if n <= len {
      BlocksTile(n, len, d0, 0);
      DivUnique(BlockOf(n, len, d0), n, 0, BlockOf(n, len, d0));
    } else {
      MulMonotone(1, PerPlace(n, len), len);
      DivUnique(0, PerPlace(n, len), 0, 0);
    }
  }

  lemma Wrapped(a: nat, m: nat)
    requires m > 0
    ensures (a + 1) % m == if a % m + 1 == m then 0 else a % m + 1
  {
    ModNext(a, m);
  }

  /** What the counters rely on when thread i is placed after thread i - 1 under close. */
  lemma CloseNext(n: nat, len: nat, d0: nat, i: nat)
    requires 0 < len && d0 < len && 0 < i < n
    ensures var s, c, d := PerPlace(n, len), CloseAt(n, len, d0, i - 1), CloseAt(n, len, d0, i);
            var up := if c + 1 == len then 0 else c + 1;
            && s > 0
            && (n <= len ==> d == up)
            && (n > len && i - 1 >= len * s ==> d == up && i != n - n % len)
            && (n > len && i - 1 < len * s ==>
                  && n - n % len == len * s
                  && ((i - 1) % s + 1 == s ==> d == up && (i < len * s ==> i % s == 0))
                  && ((i - 1) % s + 1 != s ==> d == c && i < len * s && i % s == (i - 1) % s + 1))
  {
    if n <= len {
      Wrapped(d0 + i - 1, len);
    } else {
      CloseRounds(n, len, d0, i);
    }
  }

  lemma CloseRounds(n: nat, len: nat, d0: nat, i: nat)
    requires 0 < len < n && d0 < len && 0 < i < n
    ensures var s, c, d := PerPlace(n, len), CloseAt(n, len, d0, i - 1), CloseAt(n, len, d0, i);
            var up := if c + 1 == len then 0 else c + 1;
            && s > 0 && n - n % len == len * s
            && (i - 1 >= len * s ==> d == up)
            && (i - 1 < len * s ==>
                  && ((i - 1) % s + 1 == s ==> d == up && (i < len * s ==> i % s == 0))
                  && ((i - 1) % s + 1 != s ==> d == c && i < len * s && i % s == (i - 1) % s + 1))
  {
    var s := PerPlace(n, len);
    assert n == n / len * len + n % len && s == n / len;
    assert n / len * len == len * s;
    hide PerPlace, RoundAt;
    if i - 1 >= len * s {
      RoundRest(len, s, d0, i);
    } else {
      RoundStep(len, s, d0, i);
    }
  }

  lemma RoundRest(len: nat, s: nat, d0: nat, i: nat)
    requires len > 0 && s > 0 && i > 0 && i - 1 >= len * s
    ensures var c := RoundAt(len, s, d0, i - 1); RoundAt(len, s, d0, i) == if c + 1 == len then 0 else c + 1
  {
    Wrapped(d0 + (i - 1 - len * s), len);
  }

  lemma RoundStep(len: nat, s: nat, d0: nat, i: nat)
    requires len > 0 && s > 0 && d0 < len && 0 < i <= len * s
    ensures var c, d := RoundAt(len, s, d0, i - 1), RoundAt(len, s, d0, i);
            && ((i - 1) % s + 1 == s ==> d == (if c + 1 == len then 0 else c + 1) && (i < len * s ==> i % s == 0))
            && ((i - 1) % s + 1 != s ==> d == c && i < len * s && i % s == (i - 1) % s + 1)
  {
    RoundNext(i - 1, s, len);
    DivMonotone(0, i - 1, s);
    Wrapped(d0 + (i - 1) / s, len);
    if i == len * s {
      DivUnique(d0 + len, len, 1, d0);
      DivUnique(d0, len, 0, d0);
    }
  }

  lemma RoundNext(j: nat, s: nat, len: nat)
    requires s > 0 && j < len * s
    ensures j % s + 1 == s ==> (j + 1) / s == j / s + 1 && (j + 1) % s == 0 && (j + 1 == len * s ==> j / s + 1 == len)
    ensures j % s + 1 != s ==> (j + 1) / s == j / s && (j + 1) % s == j % s + 1 && j + 1 < len * s
  {
    var q, r := j / s, j % s;
    assert j == q * s + r && (q + 1) * s == q * s + s;
    if r + 1 == s {
      DivUnique(j + 1, s, q + 1, 0);
      if j + 1 == len * s { DivUnique(j + 1, s, len, 0); }
    } else {
      DivUnique(j + 1, s, q, r + 1);
      if j + 1 == len * s { DivUnique(j + 1, s, len, 0); }
    }
  }

  lemma SpreadNext(n: nat, len: nat, b0: nat, i: nat)
    requires 1 < n <= len && b0 < n && 0 < i < n
    ensures var s, r, a, b := len / n, len % n, (b0 + i - 1) % n, (b0 + i) % n;
            && 0 <= a < n && 0 <= b < n
            && b == (if a + 1 == n then 0 else a + 1)
            && (BlockStart(n, len, a) < r * (s + 1) <==> a < r) && (BlockStart(n, len, b) < r * (s + 1) <==> b < r)
            && BlockStart(n, len, a + 1) == BlockStart(n, len, a) + BlockLen(n, len, a)
            && (BlockStart(n, len, a + 1) == len <==> a + 1 == n) && BlockStart(n, len, 0) == 0
  {
    var a, b := (b0 + i - 1) % n, (b0 + i) % n;
    Wrapped(b0 + i - 1, n);
    BlockNext(n, len, a);
    BlockMonotone(n, len, a + 1, n);
    FirstBlocks(n, len, a);
    FirstBlocks(n, len, b);
  }

  lemma FirstBlocks(n: nat, len: nat, b: nat)
    requires 0 < n <= len
    ensures var s, r := len / n, len % n; BlockStart(n, len, b) < r * (s + 1) <==> b < r
  {
    SpreadSize(n, len);
    var s, r := len / n, len % n;
    assert r * (s + 1) == r * s + r;
    if b < r { MulMonotone(b, r, s); } else { MulMonotone(r, b, s); }
  }

  // What the placement means.

  /** The thread whose sub-partition holds place d: exactly one, under spread with enough places. */
  lemma SpreadCovers(n: nat, len: nat, b0: nat, d: nat) returns (i: nat)
    requires 1 < n <= len && b0 < n && d < len
    ensures i < n
    ensures forall j: nat :: j < n ==> (InSub(n, len, b0, j, d) <==> j == i)
  {
    hide BlockOf, BlockStart, BlockLen;
    BlocksTile(n, len, d, 0);
    var c := BlockOf(n, len, d);
    i := if c >= b0 then c - b0 else c + n - b0;
    forall j: nat | j < n ensures InSub(n, len, b0, j, d) <==> j == i {
      Turn(n, b0, j);
      BlocksTile(n, len, d, (b0 + j) % n);
    }
  }

  /** Place d is in the sub-partition of thread j, when the master has sub-partition b0. */
  predicate InSub(n: nat, len: nat, b0: nat, j: nat, d: nat)
    requires n > 0
  {
    var b := (b0 + j) % n;
    b >= 0 && BlockStart(n, len, b) <= d < BlockStart(n, len, b) + BlockLen(n, len, b)
  }

  lemma Turn(n: nat, b: nat, j: nat)
    requires b < n && j < n
    ensures (b + j) % n == if b + j < n then b + j else b + j - n
  {
    if b + j < n { DivUnique(b + j, n, 0, b + j); } else { DivUnique(b + j, n, 1, b + j - n); }
  }

  /** How many of the first i threads close puts on place q. */
  function ThreadsOn(n: nat, len: nat, d0: nat, q: nat, i: nat): nat
    requires len > 0
  {
    if i == 0 then 0 else ThreadsOn(n, len, d0, q, i - 1) + if CloseAt(n, len, d0, i - 1) == q then 1 else 0
  }

  /** A whole round of threads at one place, or the first c of it. */
  lemma {:induction false} OneRound(n: nat, len: nat, d0: nat, q: nat, b: nat, c: nat)
    requires 0 < len < n && b < len && c <= PerPlace(n, len) && b * PerPlace(n, len) >= 0
    ensures ThreadsOn(n, len, d0, q, b * PerPlace(n, len) + c) ==
            ThreadsOn(n, len, d0, q, b * PerPlace(n, len)) + if (d0 + b) % len == q then c else 0
    decreases c
  {
    if c > 0 {
      OneRound(n, len, d0, q, b, c - 1);
      InRound(len, PerPlace(n, len), d0, b, c - 1);
      hide PerPlace, RoundAt;
    }
  }

  lemma InRound(len: nat, s: nat, d0: nat, b: nat, c: nat)
    requires len > 0 && b < len && c < s
    ensures b * s + c >= 0 && RoundAt(len, s, d0, b * s + c) == (d0 + b) % len
  {
    MulNonNegative(b, s);
    DivUnique(b * s + c, s, b, c);
    MulMonotone(b + 1, len, s);
    assert (b + 1) * s == b * s + s;
  }

  lemma {:induction false} Rounds(n: nat, len: nat, d0: nat, q: nat, b: nat)
    requires 0 < len < n && b <= len
    ensures b * PerPlace(n, len) >= 0
    ensures ThreadsOn(n, len, d0, q, b * PerPlace(n, len)) == PerPlace(n, len) * CountIn(d0, d0 + b, len, q)
  {
    hide PerPlace, CountIn;
    var s := PerPlace(n, len);
    MulNonNegative(b, s);
    CountOne(d0, b, len, q);
    if b > 0 {
      Rounds(n, len, d0, q, b - 1);
      MulNonNegative(b - 1, s);
      OneRound(n, len, d0, q, b - 1, s);
      RoundSum(s, b, CountIn(d0, d0 + b - 1, len, q), CountIn(d0, d0 + b, len, q) - CountIn(d0, d0 + b - 1, len, q));
      hide ThreadsOn;
    } else {
      Distribute(s, 0, 0);
      assert b * s == 0;
    }
  }

  lemma RoundSum(s: int, b: int, a: int, c: int)
    ensures (b - 1) * s + s == b * s
    ensures s * (a + c) == s * a + s * c && (c == 1 ==> s * c == s) && (c == 0 ==> s * c == 0)
  {
  }

  lemma CountOne(lo: nat, b: nat, m: nat, t: nat)
    requires m > 0
    ensures CountIn(lo, lo, m, t) == 0
    ensures b > 0 ==> CountIn(lo, lo + b, m, t) == CountIn(lo, lo + b - 1, m, t) + if (lo + b - 1) % m == t then 1 else 0
  {
    if b > 0 { CountSplit(lo, lo + b - 1, lo + b, m, t); }
  }

  lemma Distribute(s: int, a: int, b: int)
    ensures s * (a + b) == s * a + s * b && (b == 1 ==> s * b == s) && (b == 0 ==> s * b == 0)
  {
  }

  lemma {:induction false} RestOf(n: nat, len: nat, d0: nat, q: nat, j: nat)
    requires 0 < len < n && len * PerPlace(n, len) >= 0
    ensures ThreadsOn(n, len, d0, q, len * PerPlace(n, len) + j) ==
            ThreadsOn(n, len, d0, q, len * PerPlace(n, len)) + CountIn(d0, d0 + j, len, q)
    decreases j
  {
    if j > 0 {
      RestOf(n, len, d0, q, j - 1);
      CountSplit(d0, d0 + j - 1, d0 + j, len, q);
      hide PerPlace;
    }
  }

  /** With more threads than places, close puts n / len threads on every place, and one more on the first n % len places
      from the master's on. */
  lemma CloseBalanced(n: nat, len: nat, d0: nat, q: nat)
    requires 0 < len < n && d0 < len && q < len
    ensures ThreadsOn(n, len, d0, q, n) == n / len + if (if q >= d0 then q - d0 else q + len - d0) < n % len then 1 else 0
  {
    var s := PerPlace(n, len);
    assert s == n / len && n == n / len * len + n % len;
    Commute(s, len);
    MulNonNegative(len, s);
    Rounds(n, len, d0, q, len);
    RestOf(n, len, d0, q, n % len);
    CountWindow(d0, len, q, len);
    CountWindow(d0, len, q, n % len);
    DivUnique(d0, len, 0, d0);
    hide ThreadsOn, CountIn, PerPlace;
    Distribute(s, 0, CountIn(d0, d0 + len, len, q));
  }

  /** With enough places, close puts every thread on a place of its own. */
  lemma CloseDistinct(n: nat, len: nat, d0: nat, i: nat, j: nat)
    requires 0 < n <= len && d0 < len && i < j < n
    ensures CloseAt(n, len, d0, i) != CloseAt(n, len, d0, j)
  {
    Turn(len, d0, i);
    Turn(len, d0, j);
  }
}
