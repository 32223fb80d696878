/** The life cycle of work shares: every thread of a team goes through the same sequence of work-sharing constructs; the
    first to arrive creates the share, and the last to finish the next construct returns it to a free list. */
module WorkShares {
  import opened Sequences

  type Id = nat

  /** The union of next_free and next_ws: the link in a free list (-1 for NULL), or a pointer lock that is empty, held by
      the thread that creates the next share (busy), or set to the next share. */
  datatype Link = FreeLink(next: int) | ShareLink(next: int, busy: bool)

  /** alloc_work_share: before it looks at the lists; after it read the head of the free list; after it read the head's
      successor; after it cut the list behind the head. */
  datatype Alloc = Begin | Head(h: Id) | Second(h: Id, nx: Id) | Cut(nx: Id)

  /** free_work_share: before it reads the head of the list, before it links the share to it, before the swap. */
  datatype Push = Reading | Linking(h: int) | Swapping(h: int)

  /** A thread after construct k, creating the share of construct k, about to publish it, inside construct k, waiting at
      the barrier that ends it, held there while the last thread frees, or being that last thread. */
  datatype Phase =
    | Between(k: nat)
    | Allocating(k: nat, a: Alloc)
    | Created(k: nat)
    | Inside(k: nat)
    | Waiting(k: nat)
    | Held(k: nat)
    | Freeing(k: nat, f: Push)

  /** Where a block is: on the list for allocation, on the free list, cut off the free list by the allocating thread, on
      its way to the free list, or in use as a share. */
  datatype Place = OnAlloc | OnFree | Taken | Pushed | InUse

  /** n threads and the kinds of the constructs (nowait[k - 1] for construct k); the fields of the team, the blocks and the
      threads; and the history: chain[k] is the share of construct k, of which the first `freed` have been freed. */
  datatype State = State(
    n: nat, nowait: seq<bool>,
    chunk: nat, allocHead: int, freeHead: int, toFree: Id, arrived: nat,
    link: seq<Link>, completed: seq<nat>,
    cur: seq<Id>, last: seq<int>, phase: seq<Phase>,
    chain: seq<Id>, freed: nat, maker: int, pusher: int,
    alloc: seq<Id>, free: seq<Id>, taken: seq<Id>, place: seq<Place>)

  ghost predicate Sizes(s: State) {
    && s.n >= 1 && |s.cur| == |s.last| == |s.phase| == s.n
    && |s.link| == |s.completed| == |s.place|
  }

  /** gomp_new_team and gomp_team_start: block 0 is the share every thread starts with, the others of the first eight are
      on the list for allocation. */
  ghost predicate Initial(s: State) {
    && Sizes(s) && s.chunk == 8 && |s.link| == 8
    && s.allocHead == 1 && s.freeHead == -1 && s.toFree == 0 && s.arrived == 0
    && s.link[0] == ShareLink(-1, false)
    && (forall b :: 1 <= b < 8 ==> s.link[b] == FreeLink(if b < 7 then b + 1 else -1))
    && (forall t :: 0 <= t < s.n ==> s.cur[t] == 0 && s.last[t] == -1 && s.phase[t] == Between(0))
    && s.chain == [0] && s.freed == 0 && s.maker == -1 && s.pusher == -1
    && s.alloc == [1, 2, 3, 4, 5, 6, 7] && s.free == [] && s.taken == []
    && s.place == [InUse, OnAlloc, OnAlloc, OnAlloc, OnAlloc, OnAlloc, OnAlloc, OnAlloc]
  }

  // Steps.

  datatype Step = Enter(t: nat) | Allocate(t: nat) | Publish(t: nat) | Finish(t: nat) | PushOn(t: nat)

  function To(s: State, t: nat, p: Phase): State
    requires t < |s.phase|
  {
    s.(phase := s.phase[t := p])
  }

  function Mark(place: seq<Place>, a: seq<Id>, p: Place): (r: seq<Place>)
    ensures |r| == |place| && forall b :: 0 <= b < |place| ==> r[b] == if b in a then p else place[b]
  {
    seq(|place|, b requires 0 <= b < |place| => if b in a then p else place[b])
  }

  /** gomp_work_share_start: the pointer lock of the current share gives the next one, or NULL to the first thread, which
      then holds the lock. */
  function DoEnter(s: State, t: nat): State
    requires Sizes(s) && t < s.n && s.phase[t].Between? && s.cur[t] < |s.link| && s.link[s.cur[t]].ShareLink?
  {
    var ws, k := s.cur[t], s.phase[t].k + 1;
    var l := s.link[ws];
    var s1 := s.(last := s.last[t := ws]);
    if l.next < 0 then To(s1.(link := s.link[ws := ShareLink(-1, true)], maker := t), t, Allocating(k, Begin))
    else To(s1.(cur := s.cur[t := l.next]), t, Inside(k))
  }

  /** gomp_init_work_share on an allocated block, which becomes the thread's current share. */
  function TakeShare(s: State, t: nat, k: nat, ws: Id): State
    requires Sizes(s) && t < s.n && ws < |s.link|
  {
    To(s.(link := s.link[ws := ShareLink(-1, false)], completed := s.completed[ws := 0], cur := s.cur[t := ws],
          chain := s.chain + [ws], place := s.place[ws := InUse]), t, Created(k))
  }

  function Range(lo: nat, hi: nat): (r: seq<nat>)
    requires lo <= hi
    ensures |r| == hi - lo && forall i :: 0 <= i < hi - lo ==> r[i] == lo + i
  {
    seq(hi - lo, i requires 0 <= i => lo + i)
  }

  /** The links of new blocks. */
  function MoreLinks(base: nat, c: nat): (r: seq<Link>)
    ensures |r| == c
  {
    seq(c, i requires 0 <= i < c => FreeLink(if i + 1 < c then base + i + 1 else -1))
  }

  /** The last resort of alloc_work_share: twice as many new blocks as the last time; the first is taken, the others become
      the list for allocation. */
  function Grow(s: State, t: nat, k: nat): State
    requires Sizes(s) && t < s.n && s.chunk >= 1
  {
    var base, c := |s.link|, 2 * s.chunk;
    var s1 := s.(chunk := c, link := s.link + MoreLinks(base, c), completed := s.completed + seq(c, _ => 0), allocHead := base + 1,
                 alloc := Range(base + 1, base + c), place := s.place + seq(c, _ => OnAlloc));
    TakeShare(s1, t, k, base)
  }

  function Index(a: seq<Id>, x: Id): (i: nat)
    requires x in a
    ensures i < |a| && a[i] == x
  {
    if a[0] == x then 0 else 1 + Index(a[1..], x)
  }

  /** alloc_work_share, one access to shared memory at a time. */
  function DoAllocate(s: State, t: nat): State
    requires Sizes(s) && t < s.n && s.phase[t].Allocating? && AllocSafe(s, s.phase[t].a) && s.chunk >= 1
  {
    var k := s.phase[t].k;
    match s.phase[t].a {
      case Begin =>
        if s.allocHead >= 0 then
          TakeShare(s.(allocHead := s.link[s.allocHead].next, alloc := s.alloc[1..]), t, k, s.allocHead)
        else if s.freeHead < 0 then Grow(s, t, k)
        else To(s, t, Allocating(k, Head(s.freeHead)))
      case Head(h) =>
        if s.link[h].next < 0 then Grow(s, t, k) else To(s, t, Allocating(k, Second(h, s.link[h].next)))
      case Second(h, nx) =>
        var i := Index(s.free, h) + 1;
        To(s.(link := s.link[h := FreeLink(-1)], free := s.free[..i], taken := s.free[i..],
              place := Mark(s.place, s.free[i..], Taken)), t, Allocating(k, Cut(nx)))
      case Cut(nx) =>
        TakeShare(s.(allocHead := s.link[nx].next, alloc := s.taken[1..], taken := [],
                     place := Mark(s.place, s.taken, OnAlloc)), t, k, nx)
    }
  }

  /** What the accesses of alloc_work_share rely on: the blocks they read are blocks, linked as free ones. */
  predicate AllocSafe(s: State, a: Alloc) {
    match a {
      case Begin => s.allocHead >= 0 ==> s.allocHead < |s.link| && s.link[s.allocHead].FreeLink? && s.alloc != []
      case Head(h) => h < |s.link| && s.link[h].FreeLink?
      case Second(h, nx) => h < |s.link| && h in s.free
      case Cut(nx) => nx < |s.link| && s.link[nx].FreeLink? && s.taken != []
    }
  }

  /** gomp_work_share_init_done: the pointer lock of the previous share is set. */
  function DoPublish(s: State, t: nat): State
    requires Sizes(s) && t < s.n && s.phase[t].Created? && 0 <= s.last[t] < |s.link|
  {
    To(s.(link := s.link[s.last[t] := ShareLink(s.cur[t], false)], maker := -1), t, Inside(s.phase[t].k))
  }

  /** The threads at the barrier, once the last has arrived. */
  function Hold(phase: seq<Phase>): (r: seq<Phase>)
    ensures |r| == |phase|
    ensures forall t :: 0 <= t < |phase| ==> r[t] == if phase[t].Waiting? then Held(phase[t].k) else phase[t]
  {
    seq(|phase|, t requires 0 <= t < |phase| => if phase[t].Waiting? then Held(phase[t].k) else phase[t])
  }

  /** The threads of the barrier when it opens. */
  function Open(phase: seq<Phase>): (r: seq<Phase>)
    ensures |r| == |phase|
    ensures forall t :: 0 <= t < |phase| ==> r[t] == if phase[t].Held? then Between(phase[t].k) else phase[t]
  {
    seq(|phase|, t requires 0 <= t < |phase| => if phase[t].Held? then Between(phase[t].k) else phase[t])
  }

  function OpenLast(phase: seq<Phase>, last: seq<int>): (r: seq<int>)
    requires |last| == |phase|
    ensures |r| == |last| && forall t :: 0 <= t < |last| ==> r[t] == if phase[t].Held? then -1 else last[t]
  {
    seq(|last|, t requires 0 <= t < |phase| => if phase[t].Held? then -1 else last[t])
  }

  function StartFree(s: State, t: nat, k: nat): State
    requires Sizes(s) && t < s.n
    requires 0 <= s.last[t] < |s.place|
  {
    To(s.(toFree := s.cur[t], freed := s.freed + 1, pusher := t, place := s.place[s.last[t] := Pushed]), t,
       Freeing(k, Reading))
  }

  /** gomp_work_share_end_nowait, or the arrival at the barrier of gomp_work_share_end. */
  function DoFinish(s: State, t: nat): State
    requires Sizes(s) && t < s.n && s.phase[t].Inside? && 1 <= s.phase[t].k <= |s.nowait|
    requires s.cur[t] < |s.completed| && 0 <= s.last[t] < |s.place|
  {
    var k := s.phase[t].k;
    if s.nowait[k - 1] then
      var c := s.completed[s.cur[t]] + 1;
      var s1 := s.(completed := s.completed[s.cur[t] := c]);
      if c == s.n then StartFree(s1, t, k) else To(s1.(last := s.last[t := -1]), t, Between(k))
    else if s.arrived + 1 == s.n then StartFree(s.(arrived := 0, phase := Hold(s.phase)), t, k)
    else To(s.(arrived := s.arrived + 1), t, Waiting(k))
  }

  /** free_work_share, one access at a time; after the swap the thread leaves the construct, and opens the barrier. */
  function DoPush(s: State, t: nat): State
    requires Sizes(s) && t < s.n && s.phase[t].Freeing? && 0 <= s.last[t] < |s.link|
  {
    var k, w := s.phase[t].k, s.last[t];
    match s.phase[t].f {
      case Reading => To(s, t, Freeing(k, Linking(s.freeHead)))
      case Linking(h) => To(s.(link := s.link[w := FreeLink(h)]), t, Freeing(k, Swapping(h)))
      case Swapping(h) =>
        if s.freeHead == h then
          To(s.(freeHead := w, free := [w as Id] + s.free, place := s.place[w := OnFree], pusher := -1,
                last := OpenLast(s.phase, s.last)[t := -1], phase := Open(s.phase)), t, Between(k))
        else To(s, t, Freeing(k, Reading))
    }
  }

  /** A step is enabled when the thread is there; a thread that finds the pointer lock busy waits. */
  ghost predicate Enabled(s: State, e: Step)
    requires Sizes(s)
  {
    e.t < s.n &&
    match e {
      case Enter(t) =>
        s.phase[t].Between? && s.phase[t].k < |s.nowait| && s.cur[t] < |s.link| && !(s.link[s.cur[t]].ShareLink? && s.link[s.cur[t]].busy)
      case Allocate(t) => s.phase[t].Allocating?
      case Publish(t) => s.phase[t].Created?
      case Finish(t) => s.phase[t].Inside?
      case PushOn(t) => s.phase[t].Freeing?
    }
  }

  // Invariant.

  /** The number of constructs a thread has finished. */
  function Finished(p: Phase): int {
    if p.Between? || p.Held? || p.Freeing? then p.k else p.k - 1
  }

  /** The construct whose share is the thread's current one. */
  function Current(p: Phase): int {
    if p.Allocating? then p.k - 1 else p.k
  }

  /** The last construct whose share every thread can reach. */
  function Reachable(chain: seq<Id>, phase: seq<Phase>, maker: int): int {
    if 0 <= maker < |phase| && phase[maker].Created? then |chain| - 2 else |chain| - 1
  }

  /** One thread's progress, among `len` shares of which `reach` is the last that everyone can reach. */
  ghost predicate ThreadOk(nowait: seq<bool>, p: Phase, t: int, len: int, reach: int, freed: nat, maker: int, pusher: int) {
    && (if p.Between? then p.k <= |nowait| else 1 <= p.k <= |nowait|)
    && freed <= Finished(p)
    && (t != maker ==> Current(p) <= reach)
    && (p.Allocating? || p.Created? <==> t == maker)
    && (p.Allocating? ==> p.k == len && reach == len - 1)
    && (p.Created? ==> p.k == len - 1 && reach == len - 2)
    && (p.Freeing? <==> t == pusher)
    && (p.Freeing? ==> p.k == freed)
    && (p.Waiting? ==> !nowait[p.k - 1])
    && (p.Held? ==> p.k == freed && pusher >= 0 && !nowait[p.k - 1])
    && (forall i :: 0 <= i < Finished(p) && i < |nowait| && !nowait[i] ==> i < freed)
  }

  /** How far the threads are: a share is freed when all threads have finished the construct after it, and every barrier
      is passed by all or by none; one thread creates, one frees. */
  ghost predicate ProgressOk(nowait: seq<bool>, phase: seq<Phase>, len: int, reach: int, freed: nat, maker: int, pusher: int) {
    && freed <= reach < len
    && -1 <= maker < |phase| && -1 <= pusher < |phase|
    && (maker == -1 ==> reach == len - 1)
    && (exists t :: 0 <= t < |phase| && Finished(phase[t]) == freed)
    && (forall t :: 0 <= t < |phase| ==> ThreadOk(nowait, phase[t], t, len, reach, freed, maker, pusher))
  }

  function CountFinished(phase: seq<Phase>, j: nat): (n: nat)
    ensures n <= |phase|
  {
    if phase == [] then 0 else (if Finished(phase[0]) >= j then 1 else 0) + CountFinished(phase[1..], j)
  }

  function CountWaiting(phase: seq<Phase>): (n: nat)
    ensures n <= |phase|
  {
    if phase == [] then 0 else (if phase[0].Waiting? then 1 else 0) + CountWaiting(phase[1..])
  }

  ghost predicate CountsOk(nowait: seq<bool>, phase: seq<Phase>, chain: seq<Id>, freed: nat, completed: seq<nat>, arrived: nat) {
    && arrived == CountWaiting(phase) < |phase|
    && (forall j :: freed < j < |chain| && j <= |nowait| && nowait[j - 1] ==>
          chain[j] < |completed| && completed[chain[j]] == CountFinished(phase, j))
  }

  /** The threads' pointers: the current share, and the one before it while it may still be used. */
  ghost predicate PointersOk(cur: seq<Id>, last: seq<int>, phase: seq<Phase>, chain: seq<Id>)
    requires |cur| == |last| == |phase|
  {
    forall t {:trigger phase[t]} :: 0 <= t < |phase| ==>
      var p := phase[t];
      && 0 <= Current(p) < |chain| && cur[t] == chain[Current(p)]
      && (!p.Between? && !p.Held? ==> p.k >= 1 && last[t] == chain[p.k - 1])
  }

  /** The shares in use, in the order of their constructs: they are linked up to the last reachable one. */
  ghost predicate UsedOk(link: seq<Link>, used: seq<Id>, pub: int, busy: bool) {
    && (forall j :: 0 <= j < |used| ==> used[j] < |link|)
    && NoRepeats(used)
    && 0 <= pub < |used| <= pub + 2
    && (forall j :: 0 <= j < pub ==> link[used[j]] == ShareLink(used[j + 1], false))
    && link[used[pub]] == ShareLink(-1, busy)
    && (pub + 1 < |used| ==> busy && link[used[pub + 1]] == ShareLink(-1, false))
  }

  function NextIn(a: seq<Id>, i: nat): int
    requires i < |a|
  {
    if i + 1 < |a| then a[i + 1] else -1
  }

  /** A list of blocks linked through next_free. */
  ghost predicate ListOk(link: seq<Link>, head: int, a: seq<Id>) {
    && head == (if a == [] then -1 else a[0])
    && (forall i :: 0 <= i < |a| ==> a[i] < |link|)
    && (forall i :: 0 <= i < |a| ==> link[a[i]] == FreeLink(NextIn(a, i)))
    && NoRepeats(a)
  }

  /** Every block is in exactly one place. */
  ghost predicate PlacesOk(place: seq<Place>, alloc: seq<Id>, free: seq<Id>, taken: seq<Id>, used: seq<Id>, pushed: int) {
    && (forall b: Id :: b < |place| ==> (b in alloc <==> place[b] == OnAlloc))
    && (forall b: Id :: b < |place| ==> (b in free <==> place[b] == OnFree))
    && (forall b: Id :: b < |place| ==> (b in taken <==> place[b] == Taken))
    && (forall b: Id :: b < |place| ==> (b in used <==> place[b] == InUse))
    && (forall b: Id :: b < |place| ==> (b == pushed <==> place[b] == Pushed))
    && (forall b :: b in used ==> b < |place|)
    && pushed < |place|
  }

  /** Blocks b and c are neighbours on the list. */
  ghost predicate Adjacent(a: seq<Id>, b: Id, c: Id) {
    exists i :: 0 <= i < |a| - 1 && a[i] == b && a[i + 1] == c
  }

  /** What the thread inside alloc_work_share has seen is still there, whatever has been pushed since. */
  ghost predicate MakerOk(link: seq<Link>, a: Alloc, alloc: seq<Id>, free: seq<Id>, taken: seq<Id>) {
    match a {
      case Begin => taken == []
      case Head(h) => taken == [] && alloc == [] && h in free
      case Second(h, nx) => taken == [] && alloc == [] && Adjacent(free, h, nx)
      case Cut(nx) => alloc == [] && taken != [] && ListOk(link, nx, taken)
    }
  }

  /** What the thread inside free_work_share has seen is still there: nobody else moves the head. */
  ghost predicate PusherOk(link: seq<Link>, w: int, f: Push, freeHead: int) {
    && 0 <= w < |link|
    && match f {
         case Reading => true
         case Linking(h) => h == freeHead
         case Swapping(h) => h == freeHead && link[w] == FreeLink(h)
       }
  }

  datatype MakerStage = NoMaker | Maker(a: Alloc)
  datatype PushStage = NoPush | Pusher(f: Push)

  /** The memory of the team: its blocks and lists, the shares in use, and what the threads inside alloc_work_share and
      free_work_share have seen of them. */
  datatype Memory = Memory(
    link: seq<Link>, allocHead: int, freeHead: int, used: seq<Id>, pub: int, busy: bool,
    alloc: seq<Id>, free: seq<Id>, taken: seq<Id>, place: seq<Place>,
    making: MakerStage, pushed: int, pushing: PushStage)

  ghost predicate MemOk(m: Memory) {
    && |m.link| == |m.place|
    && UsedOk(m.link, m.used, m.pub, m.busy)
    && ListOk(m.link, m.allocHead, m.alloc)
    && ListOk(m.link, m.freeHead, m.free)
    && PlacesOk(m.place, m.alloc, m.free, m.taken, m.used, m.pushed)
    && (if m.making.Maker? then MakerOk(m.link, m.making.a, m.alloc, m.free, m.taken) else m.taken == [])
    && (if m.pushing.Pusher? then PusherOk(m.link, m.pushed, m.pushing.f, m.freeHead) else m.pushed == -1)
  }

  ghost function MemOf(s: State): Memory
    requires Sizes(s) && s.freed <= |s.chain|
  {
    Memory(s.link, s.allocHead, s.freeHead, s.chain[s.freed..], Reachable(s.chain, s.phase, s.maker) - s.freed, s.maker >= 0,
           s.alloc, s.free, s.taken, s.place,
           if 0 <= s.maker < s.n && s.phase[s.maker].Allocating? then Maker(s.phase[s.maker].a) else NoMaker,
           if 0 <= s.pusher < s.n && s.phase[s.pusher].Freeing? then s.last[s.pusher] else -1,
           if 0 <= s.pusher < s.n && s.phase[s.pusher].Freeing? then Pusher(s.phase[s.pusher].f) else NoPush)
  }

  ghost predicate Inv(s: State) {
    && Sizes(s) && s.chunk >= 1
    && ProgressOk(s.nowait, s.phase, |s.chain|, Reachable(s.chain, s.phase, s.maker), s.freed, s.maker, s.pusher)
    && CountsOk(s.nowait, s.phase, s.chain, s.freed, s.completed, s.arrived)
    && PointersOk(s.cur, s.last, s.phase, s.chain)
    && MemOk(MemOf(s))
  }

  lemma InitialInv(s: State)
    requires Initial(s)
    ensures Inv(s)
  {
    assert Finished(s.phase[0]) == 0;
    CountNone(s.phase);
    assert s.chain[s.freed..] == [0];
    InitialLists(s);
    InitialPlaces(s);
    hide ListOk, PlacesOk;
  }

  lemma {:induction false} CountNone(phase: seq<Phase>)
    requires forall t :: 0 <= t < |phase| ==> !phase[t].Waiting?
    ensures CountWaiting(phase) == 0
  {
    if phase != [] { CountNone(phase[1..]); }
  }

  lemma InitialLists(s: State)
    requires Initial(s)
    ensures ListOk(s.link, s.allocHead, s.alloc) && ListOk(s.link, s.freeHead, s.free)
  {
    assert forall i :: 0 <= i < 7 ==> s.alloc[i] == i + 1;
  }

  lemma InitialPlaces(s: State)
    requires Initial(s)
    ensures PlacesOk(s.place, s.alloc, s.free, s.taken, [0], -1)
  {
    var p, a := s.place, s.alloc;
    assert forall i :: 0 <= i < 7 ==> a[i] == i + 1;
    assert p[0] == InUse && forall b :: 1 <= b < 8 ==> p[b] == OnAlloc;
    forall b: Id | b < 8 ensures b in a <==> p[b] == OnAlloc {
      if b > 0 { assert a[b - 1] == b; }
    }
  }

  // Counting.

  lemma {:induction false} CountStep(phase: seq<Phase>, t: nat, p: Phase, j: nat)
    requires t < |phase|
    ensures CountFinished(phase[t := p], j) ==
            CountFinished(phase, j) - (if Finished(phase[t]) >= j then 1 else 0) + (if Finished(p) >= j then 1 else 0)
    ensures CountWaiting(phase[t := p]) ==
            CountWaiting(phase) - (if phase[t].Waiting? then 1 else 0) + (if p.Waiting? then 1 else 0)
  {
    if t == 0 {
      assert phase[t := p][1..] == phase[1..];
    } else {
      assert phase[t := p][1..] == phase[1..][t - 1 := p];
      CountStep(phase[1..], t - 1, p, j);
    }
  }

  lemma {:induction false} CountAll(phase: seq<Phase>, j: nat)
    ensures CountFinished(phase, j) == |phase| <==> forall t :: 0 <= t < |phase| ==> Finished(phase[t]) >= j
    ensures CountWaiting(phase) == |phase| <==> forall t :: 0 <= t < |phase| ==> phase[t].Waiting?
  {
    if phase != [] {
      CountAll(phase[1..], j);
      assert forall t :: 1 <= t < |phase| ==> phase[t] == phase[1..][t - 1];
      assert (forall t :: 0 <= t < |phase| ==> Finished(phase[t]) >= j)
             <==> Finished(phase[0]) >= j && forall t :: 0 <= t < |phase[1..]| ==> Finished(phase[1..][t]) >= j;
      assert (forall t :: 0 <= t < |phase| ==> phase[t].Waiting?)
             <==> phase[0].Waiting? && forall t :: 0 <= t < |phase[1..]| ==> phase[1..][t].Waiting?;
    }
  }

  /** Counts do not change when no thread finishes a construct, arrives at a barrier or leaves one. */
  lemma CountsSame(nowait: seq<bool>, phase: seq<Phase>, chain: seq<Id>, freed: nat, completed: seq<nat>, arrived: nat,
                   t: nat, p: Phase)
    requires CountsOk(nowait, phase, chain, freed, completed, arrived) && t < |phase|
    requires Finished(p) == Finished(phase[t]) && p.Waiting? == phase[t].Waiting?
    ensures CountsOk(nowait, phase[t := p], chain, freed, completed, arrived)
  {
    CountStep(phase, t, p, 0);
    forall j | freed < j < |chain| && j <= |nowait| && nowait[j - 1]
      ensures completed[chain[j]] == CountFinished(phase[t := p], j)
    {
      CountStep(phase, t, p, j);
    }
  }

  // One thread moves.

  /** A thread that stays before the end of its construct moves; it may begin, do or end the creation of a share. */
  lemma ProgressSet(nowait: seq<bool>, phase: seq<Phase>, len: int, reach: int, freed: nat, maker: int, pusher: int,
                    t: nat, p: Phase, len2: int, reach2: int, maker2: int)
    requires ProgressOk(nowait, phase, len, reach, freed, maker, pusher) && t < |phase|
    requires Finished(p) == Finished(phase[t]) && ThreadOk(nowait, p, t, len2, reach2, freed, maker2, pusher)
    requires reach <= reach2 < len2 && (maker2 == -1 ==> reach2 == len2 - 1)
    requires (maker == -1 || maker == t || maker == maker2) && (maker2 == -1 || maker2 == t || maker2 == maker)
    requires (len2 == len && reach2 == reach) || maker == t
    ensures ProgressOk(nowait, phase[t := p], len2, reach2, freed, maker2, pusher)
  {
    var u :| 0 <= u < |phase| && Finished(phase[u]) == freed;
    assert Finished(phase[t := p][u]) == freed;
    var ph := phase[t := p];
    forall v | 0 <= v < |ph| ensures ThreadOk(nowait, ph[v], v, len2, reach2, freed, maker2, pusher) {
      assert ThreadOk(nowait, phase[v], v, len, reach, freed, maker, pusher);
    }
  }

  lemma Split(s: State)
    requires Inv(s)
    ensures Sizes(s) && s.chunk >= 1 && s.freed < |s.chain| && MemOk(MemOf(s))
    ensures ProgressOk(s.nowait, s.phase, |s.chain|, Reachable(s.chain, s.phase, s.maker), s.freed, s.maker, s.pusher)
    ensures CountsOk(s.nowait, s.phase, s.chain, s.freed, s.completed, s.arrived)
    ensures PointersOk(s.cur, s.last, s.phase, s.chain)
  {
    hide CountsOk, PointersOk, MemOk;
  }

  lemma Join(r: State, reach: int)
    requires Sizes(r) && r.chunk >= 1 && r.freed < |r.chain| && MemOk(MemOf(r)) && reach == Reachable(r.chain, r.phase, r.maker)
    requires ProgressOk(r.nowait, r.phase, |r.chain|, reach, r.freed, r.maker, r.pusher)
    requires CountsOk(r.nowait, r.phase, r.chain, r.freed, r.completed, r.arrived)
    requires PointersOk(r.cur, r.last, r.phase, r.chain)
    ensures Inv(r)
  {
    hide ProgressOk, CountsOk, PointersOk, MemOk;
  }

  lemma SameSet<T>(a: seq<T>, t: nat)
    requires t < |a|
    ensures a[t := a[t]] == a
  {
  }

  /** What Inv says of the thread that moves. */
  lemma Facts(s: State, t: nat)
    requires Inv(s) && t < s.n
    ensures var reach := Reachable(s.chain, s.phase, s.maker);
            && ThreadOk(s.nowait, s.phase[t], t, |s.chain|, reach, s.freed, s.maker, s.pusher)
            && s.freed <= reach < |s.chain| && -1 <= s.maker < s.n && -1 <= s.pusher < s.n
            && (s.maker == -1 ==> reach == |s.chain| - 1)
            && 0 <= Current(s.phase[t]) < |s.chain| && s.cur[t] == s.chain[Current(s.phase[t])]
            && (!s.phase[t].Between? && !s.phase[t].Held? ==> s.phase[t].k >= 1 && s.last[t] == s.chain[s.phase[t].k - 1])
  {
    hide MemOk, CountsOk, ThreadOk, Reachable;
    assert PointersOk(s.cur, s.last, s.phase, s.chain);
    var p := s.phase[t];
  }

  /** A step that leaves the counters alone: the thread's phase and pointers change, and the memory. */
  lemma Moved(s: State, r: State, t: nat, reach: int, reach2: int)
    requires Inv(s) && t < s.n && Sizes(r) && r.n == s.n && r.chunk >= 1 && r.freed == s.freed && r.freed < |r.chain|
    requires r.nowait == s.nowait && r.pusher == s.pusher
    requires r.phase == s.phase[t := r.phase[t]] && r.cur == s.cur[t := r.cur[t]] && r.last == s.last[t := r.last[t]]
    requires reach == Reachable(s.chain, s.phase, s.maker) && reach2 == Reachable(r.chain, r.phase, r.maker)
    requires Finished(r.phase[t]) == Finished(s.phase[t])
    requires ThreadOk(s.nowait, r.phase[t], t, |r.chain|, reach2, s.freed, r.maker, s.pusher)
    requires reach <= reach2 < |r.chain| && (r.maker == -1 ==> reach2 == |r.chain| - 1)
    requires (s.maker == -1 || s.maker == t || s.maker == r.maker) && (r.maker == -1 || r.maker == t || r.maker == s.maker)
    requires (|r.chain| == |s.chain| && reach2 == reach) || s.maker == t
    requires CountsOk(r.nowait, r.phase, r.chain, r.freed, r.completed, r.arrived)
    requires PointersOk(s.cur, s.last, s.phase, r.chain)
    requires 0 <= Current(r.phase[t]) < |r.chain| && r.cur[t] == r.chain[Current(r.phase[t])]
    requires !r.phase[t].Between? && !r.phase[t].Held? ==> r.phase[t].k >= 1 && r.last[t] == r.chain[r.phase[t].k - 1]
    requires MemOk(MemOf(r))
    ensures Inv(r)
  {
    hide Inv, MemOf, MemOk, CountsOk, ProgressOk, PointersOk, ThreadOk, Reachable;
    Split(s);
    ProgressSet(s.nowait, s.phase, |s.chain|, reach, s.freed, s.maker, s.pusher, t, r.phase[t], |r.chain|, reach2, r.maker);
    PointersSet(s.cur, s.last, s.phase, r.chain, t, r.cur[t], r.last[t], r.phase[t]);
    hide Finished, Current;
    Join(r, reach2);
  }

  // gomp_work_share_start.

  lemma EnterFacts(s: State, t: nat)
    requires Inv(s) && Enabled(s, Enter(t))
    ensures s.link[s.cur[t]].ShareLink?
    ensures var k, reach := s.phase[t].k, Reachable(s.chain, s.phase, s.maker);
            && s.freed <= k <= reach && s.cur[t] == s.chain[k]
            && (s.link[s.cur[t]].next < 0 ==> k == reach && s.maker == -1 && k == |s.chain| - 1)
            && (s.link[s.cur[t]].next >= 0 ==> k < reach && s.link[s.cur[t]].next == s.chain[k + 1])
  {
    hide MemOf, MemOk, PlacesOk, CountsOk, ProgressOk, PointersOk, Inv, Reachable;
    Facts(s, t);
    Split(s);
    MemChain(s, s.phase[t].k);
    MemChain(s, s.phase[t].k + 1);
    UsedAt(MemOf(s), s.phase[t].k - s.freed);
  }

  /** The memory of a state: the shares of the chain from the first one in use on. */
  lemma MemChain(s: State, k: int)
    requires Sizes(s) && s.freed <= |s.chain|
    ensures var m := MemOf(s);
            && |m.used| == |s.chain| - s.freed && m.pub == Reachable(s.chain, s.phase, s.maker) - s.freed
            && m.busy == (s.maker >= 0) && m.link == s.link && m.place == s.place
            && (s.freed <= k < |s.chain| ==> m.used[k - s.freed] == s.chain[k])
  {
  }

  /** The links of the shares that threads can reach. */
  lemma UsedAt(m: Memory, j: int)
    requires MemOk(m) && 0 <= j <= m.pub
    ensures m.pub < |m.used| && m.used[j] < |m.link|
    ensures m.link[m.used[j]] == if j < m.pub then ShareLink(m.used[j + 1], false) else ShareLink(-1, m.busy)
  {
    hide ListOk, PlacesOk, MakerOk, PusherOk;
  }

  lemma MemEnter(m: Memory, x: Id)
    requires MemOk(m) && !m.busy && m.pub < |m.used| && m.pub >= 0 && m.used[m.pub] == x && m.making.NoMaker?
    ensures x < |m.link| && MemOk(m.(link := m.link[x := ShareLink(-1, true)], busy := true, making := Maker(Begin)))
  {
    UsedApart(m, x);
    OtherList(m.link, m.allocHead, m.alloc, x, ShareLink(-1, true));
    OtherList(m.link, m.freeHead, m.free, x, ShareLink(-1, true));
    hide ListOk, PlacesOk;
  }

  /** A share in use is on no list and is not the block that is being pushed. */
  lemma UsedApart(m: Memory, x: Id)
    requires MemOk(m) && x in m.used
    ensures x != m.pushed && x < |m.link| && x !in m.alloc && x !in m.free && x !in m.taken
  {
    hide ListOk, UsedOk, MakerOk, PusherOk;
  }

  lemma EnterFirst(s: State, t: nat)
    requires Inv(s) && Enabled(s, Enter(t)) && s.link[s.cur[t]].ShareLink? && s.link[s.cur[t]].next < 0
    ensures var r := DoEnter(s, t);
            && r.freed < |r.chain| && MemOk(MemOf(r))
            && Reachable(r.chain, r.phase, r.maker) == Reachable(s.chain, s.phase, s.maker)
  {
    hide Inv, MemOk, CountsOk, ProgressOk, PointersOk;
    Facts(s, t);
    EnterFacts(s, t);
    Split(s);
    var r, m := DoEnter(s, t), MemOf(s);
    assert Reachable(r.chain, r.phase, r.maker) == Reachable(s.chain, s.phase, s.maker);
    assert MemOf(r) == m.(link := m.link[s.cur[t] := ShareLink(-1, true)], busy := true, making := Maker(Begin));
    MemEnter(m, s.cur[t]);
  }

  lemma EnterInv(s: State, t: nat)
    requires Inv(s) && Enabled(s, Enter(t)) && s.link[s.cur[t]].ShareLink?
    ensures Inv(DoEnter(s, t))
  {
    hide Inv, MemOk, CountsOk, ProgressOk, PointersOk;
    Facts(s, t);
    EnterFacts(s, t);
    Split(s);
    var r, reach, m := DoEnter(s, t), Reachable(s.chain, s.phase, s.maker), MemOf(s);
    CountsSame(s.nowait, s.phase, s.chain, s.freed, s.completed, s.arrived, t, r.phase[t]);
    SameSet(s.cur, t);
    if s.link[s.cur[t]].next < 0 {
      EnterFirst(s, t);
    } else {
      assert Reachable(r.chain, r.phase, r.maker) == reach;
      assert MemOf(r) == m;
    }
    hide MemOf, Reachable;
    Moved(s, r, t, reach, reach);
  }

  lemma PointersSet(cur: seq<Id>, last: seq<int>, phase: seq<Phase>, chain: seq<Id>, t: nat, c: Id, l: int, p: Phase)
    requires |cur| == |last| == |phase| && PointersOk(cur, last, phase, chain) && t < |phase|
    requires 0 <= Current(p) < |chain| && c == chain[Current(p)]
    requires !p.Between? && !p.Held? ==> p.k >= 1 && l == chain[p.k - 1]
    ensures PointersOk(cur[t := c], last[t := l], phase[t := p], chain)
  {
    var ph := phase[t := p];
    forall u | 0 <= u < |ph| ensures var q := ph[u];
                                     && 0 <= Current(q) < |chain| && cur[t := c][u] == chain[Current(q)]
                                     && (!q.Between? && !q.Held? ==> q.k >= 1 && last[t := l][u] == chain[q.k - 1]) {
      var was := phase[u];
    }
  }

  /** Writing a share's link leaves the lists alone. */
  lemma OtherList(link: seq<Link>, head: int, a: seq<Id>, x: Id, l: Link)
    requires ListOk(link, head, a) && x < |link| && x !in a
    ensures ListOk(link[x := l], head, a)
  {
  }

  // Places.

  lemma TailIn(a: seq<Id>)
    requires a != [] && NoRepeats(a)
    ensures forall b :: b in a[1..] <==> b in a && b != a[0]
  {
    forall b ensures b in a[1..] <==> b in a && b != a[0] {
      if b in a[1..] { var i :| 0 <= i < |a[1..]| && a[1..][i] == b; assert a[i + 1] == b; }
      if b in a && b != a[0] { var i :| 0 <= i < |a| && a[i] == b; assert a[1..][i - 1] == b; }
    }
  }

  lemma PlaceTake(place: seq<Place>, alloc: seq<Id>, free: seq<Id>, taken: seq<Id>, used: seq<Id>, pushed: int)
    requires PlacesOk(place, alloc, free, taken, used, pushed) && alloc != [] && NoRepeats(alloc) && alloc[0] < |place|
    ensures PlacesOk(place[alloc[0] := InUse], alloc[1..], free, taken, used + [alloc[0]], pushed)
    ensures alloc[0] !in free && alloc[0] !in taken && alloc[0] !in used && alloc[0] != pushed
  {
    TailIn(alloc);
    assert alloc[0] in alloc;
    hide NoRepeats;
  }

  lemma PlaceMove(place: seq<Place>, free: seq<Id>, taken: seq<Id>, used: seq<Id>, pushed: int)
    requires PlacesOk(place, [], free, taken, used, pushed)
    ensures PlacesOk(Mark(place, taken, OnAlloc), taken, free, [], used, pushed)
  {
  }

  lemma PlaceCut(place: seq<Place>, alloc: seq<Id>, free: seq<Id>, used: seq<Id>, pushed: int, i: nat)
    requires PlacesOk(place, alloc, free, [], used, pushed) && NoRepeats(free) && i <= |free|
    ensures PlacesOk(Mark(place, free[i..], Taken), alloc, free[..i], free[i..], used, pushed)
  {
    assert free == free[..i] + free[i..];
  }

  lemma PlaceGrow(place: seq<Place>, free: seq<Id>, used: seq<Id>, pushed: int, c: nat)
    requires PlacesOk(place, [], free, [], used, pushed) && (forall b :: b in free ==> b < |place|)
    ensures PlacesOk(place + seq(c, _ => OnAlloc), Range(|place|, |place| + c), free, [], used, pushed)
  {
    var a := Range(|place|, |place| + c);
    forall b: Id | b < |place| + c ensures b in a <==> b >= |place| {
      if b >= |place| { assert a[b - |place|] == b; }
    }
  }

  lemma PlacePush(place: seq<Place>, alloc: seq<Id>, free: seq<Id>, taken: seq<Id>, used: seq<Id>, w: nat)
    requires PlacesOk(place, alloc, free, taken, used, w)
    ensures PlacesOk(place[w := OnFree], alloc, [w] + free, taken, used, -1) && w !in free
  {
  }

  lemma PlaceFree(place: seq<Place>, alloc: seq<Id>, free: seq<Id>, taken: seq<Id>, used: seq<Id>)
    requires PlacesOk(place, alloc, free, taken, used, -1) && used != [] && NoRepeats(used) && used[0] < |place|
    ensures PlacesOk(place[used[0] := Pushed], alloc, free, taken, used[1..], used[0])
  {
    TailIn(used);
    hide NoRepeats;
  }

  // alloc_work_share.

  lemma MakerFacts(s: State, t: nat)
    requires Inv(s) && t < s.n && s.phase[t].Allocating?
    ensures s.maker == t && s.phase[t].k == |s.chain| && Reachable(s.chain, s.phase, s.maker) == |s.chain| - 1
    ensures t != s.pusher && s.phase[t].k <= |s.nowait| && s.freed < |s.chain|
    ensures MemOf(s).making == Maker(s.phase[t].a)
  {
    Facts(s, t);
    hide MemOk, CountsOk, PointersOk;
  }

  lemma ListMember(link: seq<Link>, head: int, a: seq<Id>, h: Id) returns (i: nat)
    requires ListOk(link, head, a) && h in a
    ensures i < |a| && a[i] == h && h < |link| && link[h] == FreeLink(NextIn(a, i))
  {
    i :| 0 <= i < |a| && a[i] == h;
  }

  lemma MemAlloc(m: Memory)
    requires MemOk(m) && m.making.Maker?
    ensures m.allocHead >= 0 ==> m.alloc != [] && m.alloc[0] == m.allocHead < |m.link| && m.link[m.allocHead].FreeLink?
    ensures m.allocHead < 0 ==> m.alloc == []
    ensures m.making.a.Head? ==> m.making.a.h < |m.link| && m.link[m.making.a.h].FreeLink? && m.alloc == m.taken == []
    ensures m.making.a.Begin? ==> m.taken == []
    ensures m.making.a.Second? ==> m.making.a.h < |m.link| && m.making.a.h in m.free
    ensures m.making.a.Cut? ==> m.making.a.nx < |m.link| && m.link[m.making.a.nx].FreeLink? && m.taken != []
                                && m.taken[0] == m.making.a.nx && m.alloc == []
  {
    hide PlacesOk, UsedOk, PusherOk;
    HeadIn(m.alloc);
    HeadIn(m.taken);
    if m.alloc != [] { var i := ListMember(m.link, m.allocHead, m.alloc, m.alloc[0]); }
    match m.making.a {
      case Begin =>
      case Head(h) => var i := ListMember(m.link, m.freeHead, m.free, h);
      case Second(h, nx) => var i :| 0 <= i < |m.free| - 1 && m.free[i] == h && m.free[i + 1] == nx;
      case Cut(nx) => var i := ListMember(m.link, nx, m.taken, nx);
    }
  }

  /** The accesses of alloc_work_share are safe: whatever it read before is still a free block. */
  lemma AllocateSafe(s: State, t: nat)
    requires Inv(s) && t < s.n && s.phase[t].Allocating?
    ensures AllocSafe(s, s.phase[t].a) && s.chunk >= 1
  {
    Split(s);
    MakerFacts(s, t);
    hide MemOk, CountsOk, ProgressOk, PointersOk, Inv;
    MemAlloc(MemOf(s));
  }

  /** The allocating thread goes from one place in alloc_work_share to another. */
  lemma StageInv(s: State, r: State, t: nat, a: Alloc)
    requires Inv(s) && t < s.n && s.phase[t].Allocating? && Sizes(r) && r.chunk >= 1
    requires r == s.(phase := s.phase[t := Allocating(s.phase[t].k, a)], chunk := r.chunk, link := r.link,
                     completed := r.completed, allocHead := r.allocHead, alloc := r.alloc,
                     free := r.free, taken := r.taken, place := r.place)
    requires s.completed <= r.completed && s.freed < |s.chain|
    requires MemOk(MemOf(s).(link := r.link, allocHead := r.allocHead, alloc := r.alloc, free := r.free, taken := r.taken,
                             place := r.place, making := Maker(a)))
    ensures Inv(r)
  {
    hide Inv, MemOk, CountsOk, ProgressOk, PointersOk;
    Facts(s, t);
    MakerFacts(s, t);
    Split(s);
    var reach := Reachable(s.chain, s.phase, s.maker);
    assert Reachable(r.chain, r.phase, r.maker) == reach;
    CountsSame(s.nowait, s.phase, s.chain, s.freed, s.completed, s.arrived, t, r.phase[t]);
    CountsLonger(s.nowait, r.phase, s.chain, s.freed, s.completed, s.arrived, r.completed);
    SameSet(s.cur, t);
    SameSet(s.last, t);
    hide Reachable;
    Moved(s, r, t, reach, reach);
  }

  lemma CountsLonger(nowait: seq<bool>, phase: seq<Phase>, chain: seq<Id>, freed: nat, completed: seq<nat>, arrived: nat,
                     longer: seq<nat>)
    requires CountsOk(nowait, phase, chain, freed, completed, arrived) && completed <= longer
    ensures CountsOk(nowait, phase, chain, freed, longer, arrived)
  {
  }

  /** The head of the free list, then its successor, are read. */
  lemma MemRead(m: Memory)
    requires MemOk(m) && m.making.Maker?
    ensures m.making.a.Begin? && m.allocHead < 0 && m.freeHead >= 0 ==> MemOk(m.(making := Maker(Head(m.freeHead))))
    ensures m.making.a.Head? && m.making.a.h < |m.link| && m.link[m.making.a.h].next >= 0 ==>
              MemOk(m.(making := Maker(Second(m.making.a.h, m.link[m.making.a.h].next))))
  {
    hide PlacesOk, UsedOk, PusherOk;
    HeadIn(m.free);
    if m.making.a.Head? {
      var i := ListMember(m.link, m.freeHead, m.free, m.making.a.h);
      assert i + 1 < |m.free| ==> m.free[i + 1] == m.link[m.making.a.h].next;
    }
  }

  lemma IndexUnique(a: seq<Id>, i: nat)
    requires NoRepeats(a) && i < |a|
    ensures a[i] in a && Index(a, a[i]) == i
  {
  }

  lemma ListPrefix(link: seq<Link>, head: int, a: seq<Id>, i: nat)
    requires ListOk(link, head, a) && i < |a|
    ensures a[i] < |link| && ListOk(link[a[i] := FreeLink(-1)], head, a[..i + 1])
  {
    hide NextIn;
    var r, cut := a[..i + 1], link[a[i] := FreeLink(-1)];
    PrefixDistinct(a, i + 1);
    hide NoRepeats;
    forall j | 0 <= j < |r| ensures r[j] < |cut| && cut[r[j]] == FreeLink(NextIn(r, j)) {
      PrefixNext(a, i, j);
    }
  }

  lemma PrefixDistinct(a: seq<Id>, k: nat)
    requires NoRepeats(a) && k <= |a|
    ensures NoRepeats(a[..k]) && forall j :: 0 <= j < k - 1 ==> a[j] != a[k - 1]
  {
  }

  lemma PrefixNext(a: seq<Id>, i: nat, j: nat)
    requires j <= i < |a|
    ensures NextIn(a[..i + 1], j) == if j < i then NextIn(a, j) else -1
  {
  }

  lemma ListSuffix(link: seq<Link>, head: int, a: seq<Id>, i: nat)
    requires ListOk(link, head, a) && i + 1 < |a|
    ensures ListOk(link, a[i + 1], a[i + 1..]) && a[i] !in a[i + 1..]
  {
    var r := a[i + 1..];
    forall j | 0 <= j < |r| ensures r[j] < |link| && link[r[j]] == FreeLink(NextIn(r, j)) && r[j] != a[i] {
      assert r[j] == a[i + 1 + j] && NextIn(r, j) == NextIn(a, i + 1 + j);
    }
  }

  lemma CutLists(link: seq<Link>, head: int, a: seq<Id>, h: Id, nx: Id)
    requires ListOk(link, head, a) && Adjacent(a, h, nx)
    ensures h in a && h < |link| && Index(a, h) + 1 < |a|
    ensures ListOk(link[h := FreeLink(-1)], head, a[..Index(a, h) + 1])
    ensures ListOk(link[h := FreeLink(-1)], nx, a[Index(a, h) + 1..])
  {
    hide ListOk, Index, NoRepeats;
    var i :| 0 <= i < |a| - 1 && a[i] == h && a[i + 1] == nx;
    ListIndex(link, head, a, i);
    ListPrefix(link, head, a, i);
    ListSuffix(link, head, a, i);
    OtherList(link, nx, a[i + 1..], h, FreeLink(-1));
  }

  lemma ListIndex(link: seq<Link>, head: int, a: seq<Id>, i: nat)
    requires ListOk(link, head, a) && i < |a|
    ensures a[i] in a && Index(a, a[i]) == i
  {
    IndexUnique(a, i);
  }

  /** The list behind its head becomes the allocating thread's own; a push that is under way is not disturbed. */
  lemma MemCut(m: Memory, h: Id, nx: Id)
    requires MemOk(m) && m.making == Maker(Second(h, nx))
    ensures h in m.free && h < |m.link|
    ensures var i := Index(m.free, h) + 1;
            MemOk(m.(link := m.link[h := FreeLink(-1)], free := m.free[..i], taken := m.free[i..],
                     place := Mark(m.place, m.free[i..], Taken), making := Maker(Cut(nx))))
  {
    hide UsedOk, ListOk, PlacesOk, PusherOk, Index, Adjacent, Mark;
    CutLists(m.link, m.freeHead, m.free, h, nx);
    var i := Index(m.free, h) + 1;
    FreeApart(m, h);
    CutPlaces(m, i);
    ListNil(m.link, m.link[h := FreeLink(-1)], m.allocHead, m.alloc);
    if m.pushing.Pusher? { PusherStays(m.link, m.pushed, m.pushing.f, m.freeHead, h, FreeLink(-1)); }
  }

  lemma PusherStays(link: seq<Link>, w: int, f: Push, head: int, x: Id, l: Link)
    requires PusherOk(link, w, f, head) && x < |link| && x != w
    ensures PusherOk(link[x := l], w, f, head)
  {
  }

  lemma CutPlaces(m: Memory, i: nat)
    requires MemOk(m) && i <= |m.free| && m.taken == []
    ensures PlacesOk(Mark(m.place, m.free[i..], Taken), m.alloc, m.free[..i], m.free[i..], m.used, m.pushed)
  {
    hide UsedOk, MakerOk, PusherOk;
    PlaceCut(m.place, m.alloc, m.free, m.used, m.pushed, i);
  }

  /** A free block is neither in use nor being pushed, so the shares do not notice when its link changes. */
  lemma FreeApart(m: Memory, h: Id)
    requires MemOk(m) && h in m.free && h < |m.link|
    ensures h != m.pushed && h !in m.used && UsedOk(m.link[h := FreeLink(-1)], m.used, m.pub, m.busy)
  {
    hide ListOk, MakerOk, PusherOk;
    assert h !in m.used;
    hide PlacesOk;
    OtherUsed(m.link, m.used, m.pub, m.busy, h, FreeLink(-1));
  }

  lemma ListNil(link: seq<Link>, link2: seq<Link>, head: int, a: seq<Id>)
    requires ListOk(link, head, a) && a == []
    ensures ListOk(link2, head, a)
  {
  }

  lemma OtherUsed(link: seq<Link>, used: seq<Id>, pub: int, busy: bool, x: Id, l: Link)
    requires UsedOk(link, used, pub, busy) && x < |link| && x !in used
    ensures UsedOk(link[x := l], used, pub, busy)
  {
  }

  /** What has been cut off becomes the list for allocation. */
  lemma MemAdopt(m: Memory, nx: Id)
    requires MemOk(m) && m.making == Maker(Cut(nx))
    ensures MemOk(m.(allocHead := nx, alloc := m.taken, taken := [], place := Mark(m.place, m.taken, OnAlloc),
                     making := Maker(Begin)))
  {
    hide UsedOk, PusherOk;
    PlaceMove(m.place, m.free, m.taken, m.used, m.pushed);
    hide PlacesOk, ListOk;
  }

  /** New blocks, on the list for allocation. */
  lemma MemGrow(m: Memory, c: nat)
    requires MemOk(m) && m.making.Maker? && m.alloc == [] && m.taken == [] && c > 0
    ensures var n := |m.link|;
            MemOk(m.(link := m.link + MoreLinks(n, c), allocHead := n, alloc := Range(n, n + c),
                     place := m.place + seq(c, _ => OnAlloc), making := Maker(Begin)))
  {
    hide ListOk, UsedOk, PlacesOk, MoreLinks, Range;
    var n := |m.link|;
    LongerList(m.link, m.freeHead, m.free, MoreLinks(n, c));
    LongerUsed(m.link, m.used, m.pub, m.busy, MoreLinks(n, c));
    PlaceGrow(m.place, m.free, m.used, m.pushed, c);
    GrownList(m.link, c);
  }

  lemma GrownList(link: seq<Link>, c: nat)
    requires c > 0
    ensures ListOk(link + MoreLinks(|link|, c), |link|, Range(|link|, |link| + c))
  {
  }

  lemma LongerList(link: seq<Link>, head: int, a: seq<Id>, more: seq<Link>)
    requires ListOk(link, head, a)
    ensures ListOk(link + more, head, a) && forall b :: b in a ==> b < |link|
  {
  }

  lemma LongerUsed(link: seq<Link>, used: seq<Id>, pub: int, busy: bool, more: seq<Link>)
    requires UsedOk(link, used, pub, busy)
    ensures UsedOk(link + more, used, pub, busy)
  {
  }

  /** The first block of the list for allocation becomes the next share. */
  lemma MemTake(m: Memory, ws: Id)
    requires MemOk(m) && m.making == Maker(Begin) && m.alloc != [] && m.alloc[0] == ws && m.busy && m.pub == |m.used| - 1
    ensures ws < |m.link| && ws !in m.used
    ensures MemOk(m.(link := m.link[ws := ShareLink(-1, false)], allocHead := m.link[ws].next, alloc := m.alloc[1..],
                     used := m.used + [ws], place := m.place[ws := InUse], making := NoMaker))
  {
    TakeApart(m, ws);
    ListTail(m.link, m.allocHead, m.alloc);
    OtherList(m.link, m.link[ws].next, m.alloc[1..], ws, ShareLink(-1, false));
    OtherList(m.link, m.freeHead, m.free, ws, ShareLink(-1, false));
    MoreUsed(m.link, m.used, m.pub, ws);
    hide ListOk, UsedOk, PlacesOk;
  }

  lemma TakeApart(m: Memory, ws: Id)
    requires MemOk(m) && m.alloc != [] && m.alloc[0] == ws
    ensures ws < |m.link| && ws !in m.used && ws != m.pushed && ws !in m.free
    ensures PlacesOk(m.place[ws := InUse], m.alloc[1..], m.free, m.taken, m.used + [ws], m.pushed)
  {
    hide UsedOk, MakerOk, PusherOk;
    var i := ListMember(m.link, m.allocHead, m.alloc, ws) by { HeadIn(m.alloc); }
    PlaceTake(m.place, m.alloc, m.free, m.taken, m.used, m.pushed);
  }

  lemma MoreUsed(link: seq<Link>, used: seq<Id>, pub: int, ws: Id)
    requires UsedOk(link, used, pub, true) && pub == |used| - 1 && ws < |link| && ws !in used
    ensures UsedOk(link[ws := ShareLink(-1, false)], used + [ws], pub, true)
  {
  }

  /** One access of alloc_work_share before it has found a block. */
  lemma SearchInv(s: State, t: nat, r: State)
    requires Sizes(s) && t < s.n && s.phase[t].Allocating? && AllocSafe(s, s.phase[t].a) && s.chunk >= 1
    requires r == DoAllocate(s, t) && t < |r.phase| && r.phase[t].Allocating? && Inv(s)
    ensures Inv(r)
  {
    hide Inv;
    Split(s);
    hide MemOk, CountsOk, ProgressOk, PointersOk, Index, Mark, MemOf;
    if s.phase[t].a.Second? {
      CutStep(s, t);
      hide DoAllocate, Sizes;
      CutInv(s, t, s.phase[t].a.h, s.phase[t].a.nx);
    } else {
      ReadStep(s, t);
      hide DoAllocate, Sizes;
      ReadInv(s, t);
    }
  }

  /** Where a read of the free list leads. */
  function AfterRead(s: State, a: Alloc): Alloc
    requires a.Head? ==> a.h < |s.link|
  {
    if a.Begin? && s.freeHead >= 0 then Head(s.freeHead)
    else if a.Head? && s.link[a.h].next >= 0 then Second(a.h, s.link[a.h].next)
    else a
  }

  lemma ReadInv(s: State, t: nat)
    requires Inv(s) && t < s.n && s.phase[t].Allocating? && AllocSafe(s, s.phase[t].a)
    requires if s.phase[t].a.Begin? then s.allocHead < 0 <= s.freeHead else s.phase[t].a.Head? && s.link[s.phase[t].a.h].next >= 0
    ensures Inv(To(s, t, Allocating(s.phase[t].k, AfterRead(s, s.phase[t].a))))
  {
    hide Inv, MemOk, CountsOk, ProgressOk, PointersOk;
    Split(s);
    MakerFacts(s, t);
    MemRead(MemOf(s));
    var a := AfterRead(s, s.phase[t].a);
    StageInv(s, To(s, t, Allocating(s.phase[t].k, a)), t, a);
  }

  /** All but the head of the free list is cut off. */
  function CutOff(s: State, t: nat, h: Id, nx: Id): State
    requires Sizes(s) && t < s.n && s.phase[t].Allocating? && h in s.free && h < |s.link|
  {
    var i := Index(s.free, h) + 1;
    To(s.(link := s.link[h := FreeLink(-1)], free := s.free[..i], taken := s.free[i..], place := Mark(s.place, s.free[i..], Taken)),
       t, Allocating(s.phase[t].k, Cut(nx)))
  }

  lemma CutInv(s: State, t: nat, h: Id, nx: Id)
    requires Inv(s) && t < s.n && s.phase[t].Allocating? && s.phase[t].a == Second(h, nx) && h in s.free && h < |s.link|
    ensures Sizes(s) && Inv(CutOff(s, t, h, nx))
  {
    hide Inv, MemOk, CountsOk, ProgressOk, PointersOk, Index, Mark;
    Split(s);
    MakerFacts(s, t);
    MemCut(MemOf(s), h, nx);
    StageInv(s, CutOff(s, t, h, nx), t, Cut(nx));
  }

  /** A read of the free list changes nothing but the thread's own state. */
  lemma ReadStep(s: State, t: nat)
    requires Sizes(s) && t < s.n && s.phase[t].Allocating? && AllocSafe(s, s.phase[t].a) && s.chunk >= 1
    requires DoAllocate(s, t).phase[t].Allocating? && !s.phase[t].a.Second?
    ensures if s.phase[t].a.Begin? then s.allocHead < 0 <= s.freeHead else s.phase[t].a.Head? && s.link[s.phase[t].a.h].next >= 0
    ensures DoAllocate(s, t) == To(s, t, Allocating(s.phase[t].k, AfterRead(s, s.phase[t].a)))
  {
    hide Index, Mark;
  }

  /** The write that cuts off all but the head of the free list. */
  lemma CutStep(s: State, t: nat)
    requires Sizes(s) && t < s.n && s.phase[t].Allocating? && AllocSafe(s, s.phase[t].a) && s.chunk >= 1 && s.phase[t].a.Second?
    ensures DoAllocate(s, t) == CutOff(s, t, s.phase[t].a.h, s.phase[t].a.nx)
  {
    hide Mark, Index;
  }

  /** The state in which the blocks cut off are the list for allocation. */
  function Adopted(s: State, t: nat): State
    requires t < |s.phase| && s.phase[t].Allocating? && s.phase[t].a.Cut?
  {
    To(s.(allocHead := s.phase[t].a.nx, alloc := s.taken, taken := [], place := Mark(s.place, s.taken, OnAlloc)),
       t, Allocating(s.phase[t].k, Begin))
  }

  /** The state in which new blocks are the list for allocation. */
  function Grown(s: State, t: nat): State
    requires t < |s.phase| && s.phase[t].Allocating?
  {
    var base, c := |s.link|, 2 * s.chunk;
    To(s.(chunk := c, link := s.link + MoreLinks(base, c), completed := s.completed + seq(c, _ => 0), allocHead := base,
          alloc := Range(base, base + c), place := s.place + seq(c, _ => OnAlloc)), t, Allocating(s.phase[t].k, Begin))
  }

  function TakeFirst(s: State, t: nat): State
    requires Sizes(s) && t < s.n && s.phase[t].Allocating? && s.alloc != [] && s.alloc[0] < |s.link|
  {
    TakeShare(s.(allocHead := s.link[s.alloc[0]].next, alloc := s.alloc[1..]), t, s.phase[t].k, s.alloc[0])
  }

  lemma AdoptedInv(s: State, t: nat)
    requires Inv(s) && t < s.n && s.phase[t].Allocating? && s.phase[t].a.Cut?
    ensures Inv(Adopted(s, t))
  {
    hide Inv, MemOk, CountsOk, ProgressOk, PointersOk, Mark;
    Split(s);
    MakerFacts(s, t);
    MemAdopt(MemOf(s), s.phase[t].a.nx);
    StageInv(s, Adopted(s, t), t, Begin);
  }

  lemma GrownInv(s: State, t: nat)
    requires Inv(s) && t < s.n && s.phase[t].Allocating? && s.alloc == [] && s.taken == []
    ensures Inv(Grown(s, t))
  {
    hide Inv, MemOk, CountsOk, ProgressOk, PointersOk, MoreLinks, Range;
    Split(s);
    MakerFacts(s, t);
    MemGrow(MemOf(s), 2 * s.chunk);
    StageInv(s, Grown(s, t), t, Begin);
  }

  /** A block is taken for the next share. */
  lemma TakeInv(s: State, t: nat)
    requires Inv(s) && t < s.n && s.phase[t].Allocating? && s.phase[t].a.Begin? && s.alloc != [] && s.alloc[0] < |s.link|
    ensures Inv(TakeFirst(s, t))
  {
    hide Inv, MemOk, CountsOk, ProgressOk, PointersOk;
    Split(s);
    Facts(s, t);
    MakerFacts(s, t);
    TakeCounts(s, t);
    var r, m, ws := TakeFirst(s, t), MemOf(s), s.alloc[0];
    var reach := Reachable(s.chain, s.phase, s.maker);
    assert Reachable(r.chain, r.phase, r.maker) == reach;
    MemTake(m, ws);
    assert s.chain[s.freed..] + [ws] == r.chain[s.freed..];
    PointersLonger(s.cur, s.last, s.phase, s.chain, ws);
    SameSet(s.last, t);
    assert MemOf(r) == m.(link := m.link[ws := ShareLink(-1, false)], allocHead := m.link[ws].next, alloc := m.alloc[1..],
                          used := m.used + [ws], place := m.place[ws := InUse], making := NoMaker);
    hide Reachable, MemOf;
    Moved(s, r, t, reach, reach);
  }

  lemma PointersLonger(cur: seq<Id>, last: seq<int>, phase: seq<Phase>, chain: seq<Id>, ws: Id)
    requires |cur| == |last| == |phase| && PointersOk(cur, last, phase, chain)
    ensures PointersOk(cur, last, phase, chain + [ws])
  {
    forall u | 0 <= u < |phase| ensures
      var q := phase[u];
      && 0 <= Current(q) < |chain + [ws]| && cur[u] == (chain + [ws])[Current(q)]
      && (!q.Between? && !q.Held? ==> q.k >= 1 && last[u] == (chain + [ws])[q.k - 1])
    {
      var q := phase[u];
    }
  }

  /** Nobody has finished a construct whose share is only now created. */
  lemma {:induction false} CountZero(phase: seq<Phase>, j: nat)
    requires forall t :: 0 <= t < |phase| ==> Finished(phase[t]) < j
    ensures CountFinished(phase, j) == 0
  {
    if phase != [] { CountZero(phase[1..], j); }
  }

  lemma TakeCounts(s: State, t: nat)
    requires Inv(s) && t < s.n && s.phase[t].Allocating? && s.phase[t].a.Begin? && s.alloc != [] && s.alloc[0] < |s.link|
    ensures var ws := s.alloc[0];
            CountsOk(s.nowait, s.phase[t := Created(s.phase[t].k)], s.chain + [ws], s.freed, s.completed[ws := 0], s.arrived)
  {
    Split(s);
    MakerFacts(s, t);
    var k, ws, p, reach := s.phase[t].k, s.alloc[0], Created(s.phase[t].k), Reachable(s.chain, s.phase, s.maker);
    assert ws !in MemOf(s).used by { hide ProgressOk, CountsOk, PointersOk, UsedOk; TakeApart(MemOf(s), ws); }
    hide Inv, MemOk, PointersOk, Reachable;
    forall u | 0 <= u < s.n ensures Finished(s.phase[u]) < k {
      assert ThreadOk(s.nowait, s.phase[u], u, |s.chain|, reach, s.freed, s.maker, s.pusher);
    }
    CountZero(s.phase, k);
    hide ProgressOk, ThreadOk;
    CountsSame(s.nowait, s.phase, s.chain, s.freed, s.completed, s.arrived, t, p);
    CountStep(s.phase, t, p, k);
    CountsMore(s.nowait, s.phase[t := p], s.chain, s.freed, s.completed, s.arrived, ws);
  }

  lemma CountsMore(nowait: seq<bool>, phase: seq<Phase>, chain: seq<Id>, freed: nat, completed: seq<nat>, arrived: nat, ws: Id)
    requires CountsOk(nowait, phase, chain, freed, completed, arrived) && freed < |chain| && ws < |completed|
    requires ws !in chain[freed..] && CountFinished(phase, |chain|) == 0
    ensures CountsOk(nowait, phase, chain + [ws], freed, completed[ws := 0], arrived)
  {
    forall j | freed < j < |chain| ensures chain[j] != ws {
      assert chain[j] == chain[freed..][j - freed];
    }
  }

  lemma ListTail(link: seq<Link>, head: int, a: seq<Id>)
    requires ListOk(link, head, a) && a != []
    ensures a[0] < |link| && ListOk(link, link[a[0]].next, a[1..]) && a[0] !in a[1..]
  {
    TailIn(a);
    var r := a[1..];
    assert link[a[0]] == FreeLink(NextIn(a, 0));
    forall j | 0 <= j < |r| ensures link[r[j]] == FreeLink(NextIn(r, j)) {
      assert r[j] == a[j + 1] && NextIn(r, j) == NextIn(a, j + 1);
    }
  }

  /** Every access of alloc_work_share, and the initialisation of the block it finds. */
  lemma AllocateInv(s: State, t: nat)
    requires Inv(s) && t < s.n && s.phase[t].Allocating? && AllocSafe(s, s.phase[t].a) && s.chunk >= 1
    ensures Inv(DoAllocate(s, t))
  {
    hide Inv, MemOk, CountsOk, ProgressOk, PointersOk;
    Split(s);
    MakerFacts(s, t);
    MemAlloc(MemOf(s));
    hide Mark, Index;
    if DoAllocate(s, t).phase[t].Allocating? {
      SearchInv(s, t, DoAllocate(s, t));
    } else if s.phase[t].a.Begin? && s.allocHead >= 0 {
      TakeInv(s, t);
    } else if s.phase[t].a.Cut? {
      AdoptedInv(s, t);
      TakeInv(Adopted(s, t), t);
      AdoptedTake(s, t);
    } else {
      GrownInv(s, t);
      GrownTake(s, t);
      TakeInv(Grown(s, t), t);
    }
  }

  lemma AdoptedTake(s: State, t: nat)
    requires Sizes(s) && t < s.n && s.phase[t].Allocating? && s.phase[t].a.Cut? && AllocSafe(s, s.phase[t].a) && s.chunk >= 1
    requires s.taken != [] && s.taken[0] == s.phase[t].a.nx
    ensures DoAllocate(s, t) == TakeFirst(Adopted(s, t), t)
  {
    assert s.phase[t := Allocating(s.phase[t].k, Begin)][t := Created(s.phase[t].k)] == s.phase[t := Created(s.phase[t].k)];
  }

  lemma GrownTake(s: State, t: nat)
    requires Sizes(s) && t < s.n && s.phase[t].Allocating? && s.chunk >= 1
    ensures Grown(s, t).alloc != [] && Grown(s, t).alloc[0] < |Grown(s, t).link| && Sizes(Grown(s, t))
    ensures Grow(s, t, s.phase[t].k) == TakeFirst(Grown(s, t), t)
  {
    var base, c := |s.link|, 2 * s.chunk;
    assert s.phase[t := Allocating(s.phase[t].k, Begin)][t := Created(s.phase[t].k)] == s.phase[t := Created(s.phase[t].k)];
    assert Range(base, base + c)[1..] == Range(base + 1, base + c);
    assert (s.link + MoreLinks(base, c))[base] == FreeLink(base + 1);
  }

  // gomp_work_share_init_done.

  lemma MemPublish(m: Memory, x: Id, y: Id)
    requires MemOk(m) && m.making.NoMaker? && m.pub == |m.used| - 2 && m.pub >= 0 && m.used[m.pub] == x && m.used[m.pub + 1] == y
    ensures x < |m.link| && MemOk(m.(link := m.link[x := ShareLink(y, false)], pub := m.pub + 1, busy := false))
  {
    hide ListOk, PlacesOk;
    UsedApart(m, x);
    OtherList(m.link, m.allocHead, m.alloc, x, ShareLink(y, false));
    OtherList(m.link, m.freeHead, m.free, x, ShareLink(y, false));
  }

  lemma PublishFacts(s: State, t: nat)
    requires Inv(s) && t < s.n && s.phase[t].Created?
    ensures s.maker == t && t != s.pusher && s.freed < |s.chain| && s.phase[t].k == |s.chain| - 1 >= 1
    ensures Reachable(s.chain, s.phase, s.maker) == |s.chain| - 2 >= s.freed
    ensures s.last[t] == s.chain[|s.chain| - 2] && s.cur[t] == s.chain[|s.chain| - 1]
    ensures 0 <= s.last[t] < |s.link|
  {
    hide Inv, CountsOk, PointersOk, ProgressOk, MemOk, MemOf;
    Facts(s, t);
    Split(s);
    MemChain(s, |s.chain| - 2);
    UsedAt(MemOf(s), MemOf(s).pub);
  }

  lemma PublishInv(s: State, t: nat)
    requires Inv(s) && t < s.n && s.phase[t].Created? && 0 <= s.last[t] < |s.link|
    ensures Inv(DoPublish(s, t))
  {
    hide Inv, MemOk, CountsOk, ProgressOk, PointersOk;
    Facts(s, t);
    PublishFacts(s, t);
    Split(s);
    var r, m, x, y := DoPublish(s, t), MemOf(s), s.last[t], s.cur[t];
    var reach := Reachable(s.chain, s.phase, s.maker);
    assert Reachable(r.chain, r.phase, r.maker) == reach + 1;
    assert m.used[m.pub] == s.chain[|s.chain| - 2] && m.used[m.pub + 1] == s.chain[|s.chain| - 1];
    MemPublish(m, x, y);
    assert MemOf(r) == m.(link := m.link[x := ShareLink(y, false)], pub := m.pub + 1, busy := false);
    CountsSame(s.nowait, s.phase, s.chain, s.freed, s.completed, s.arrived, t, r.phase[t]);
    SameSet(s.cur, t);
    SameSet(s.last, t);
    hide MemOf, Reachable;
    Moved(s, r, t, reach, reach + 1);
  }

  // The end of a construct.

  /** What the end of a construct relies on. */
  lemma InsideFacts(s: State, t: nat)
    requires Inv(s) && t < s.n && (s.phase[t].Inside? || s.phase[t].Freeing?)
    ensures 1 <= s.phase[t].k <= |s.nowait| && s.phase[t].k < |s.chain| && s.cur[t] == s.chain[s.phase[t].k]
    ensures s.last[t] == s.chain[s.phase[t].k - 1] && t != s.maker && s.phase[t].k <= Reachable(s.chain, s.phase, s.maker)
    ensures s.phase[t].Inside? ==> s.freed < s.phase[t].k && t != s.pusher
    ensures s.phase[t].Freeing? ==> s.freed == s.phase[t].k && t == s.pusher
    ensures s.phase[t].Inside? ==> s.cur[t] < |s.completed| && 0 <= s.last[t] < |s.place|
    ensures s.phase[t].Freeing? ==> 0 <= s.last[t] < |s.link|
  {
    hide Inv, CountsOk, PointersOk, ProgressOk, ListOk, Reachable, MakerOk;
    Facts(s, t);
    Split(s);
    var m, k := MemOf(s), s.phase[t].k;
    if s.phase[t].Inside? {
      assert m.used[k - s.freed] == s.chain[k] && m.used[k - 1 - s.freed] == s.chain[k - 1];
    }
  }

  lemma CountsFinish(nowait: seq<bool>, phase: seq<Phase>, chain: seq<Id>, freed: nat, completed: seq<nat>, arrived: nat,
                     t: nat, k: nat, p: Phase)
    requires CountsOk(nowait, phase, chain, freed, completed, arrived) && t < |phase| && freed < k < |chain| && k <= |nowait|
    requires phase[t].Inside? && phase[t].k == k && Finished(p) == k && !p.Waiting? && nowait[k - 1]
    requires NoRepeats(chain[freed..]) && chain[k] < |completed|
    ensures completed[chain[k]] == CountFinished(phase, k) == CountFinished(phase[t := p], k) - 1
    ensures CountsOk(nowait, phase[t := p], chain, freed, completed[chain[k] := completed[chain[k]] + 1], arrived)
  {
    CountStep(phase, t, p, k);
    forall j | freed < j < |chain| && j <= |nowait| && nowait[j - 1]
      ensures completed[chain[k] := completed[chain[k]] + 1][chain[j]] == CountFinished(phase[t := p], j)
    {
      CountStep(phase, t, p, j);
      assert chain[j] == chain[freed..][j - freed] && chain[k] == chain[freed..][k - freed];
    }
  }

  lemma ProgressFinish(nowait: seq<bool>, phase: seq<Phase>, len: int, reach: int, freed: nat, maker: int, pusher: int,
                       t: nat, k: nat)
    requires ProgressOk(nowait, phase, len, reach, freed, maker, pusher) && t < |phase| && phase[t] == Inside(k)
    requires 1 <= k <= |nowait| && nowait[k - 1] && CountFinished(phase[t := Between(k)], k) < |phase|
    ensures ProgressOk(nowait, phase[t := Between(k)], len, reach, freed, maker, pusher)
  {
    var ph := phase[t := Between(k)];
    forall v | 0 <= v < |ph| ensures ThreadOk(nowait, ph[v], v, len, reach, freed, maker, pusher) {
      assert ThreadOk(nowait, phase[v], v, len, reach, freed, maker, pusher);
    }
    var u :| 0 <= u < |phase| && Finished(phase[u]) == freed;
    if u != t {
      assert Finished(ph[u]) == freed;
    } else {
      CountAll(ph, k);
      var v :| 0 <= v < |ph| && !(Finished(ph[v]) >= k);
      assert ThreadOk(nowait, ph[v], v, len, reach, freed, maker, pusher);
      assert Finished(ph[v]) == freed;
    }
  }

  /** The threads that create and free, if any. */
  lemma RolesThere(nowait: seq<bool>, phase: seq<Phase>, len: int, reach: int, freed: nat, maker: int, pusher: int)
    requires ProgressOk(nowait, phase, len, reach, freed, maker, pusher)
    ensures maker >= 0 ==> phase[maker].Allocating? || phase[maker].Created?
    ensures pusher >= 0 ==> phase[pusher].Freeing? && phase[pusher].k == freed
  {
    if maker >= 0 { assert ThreadOk(nowait, phase[maker], maker, len, reach, freed, maker, pusher); }
    if pusher >= 0 { assert ThreadOk(nowait, phase[pusher], pusher, len, reach, freed, maker, pusher); }
  }

  /** The last thread to finish without a barrier: nobody else is before the end of the construct, and nobody frees. */
  lemma LastFinisher(nowait: seq<bool>, phase: seq<Phase>, len: int, reach: int, freed: nat, maker: int, pusher: int,
                     t: nat, k: nat, p: Phase)
    requires ProgressOk(nowait, phase, len, reach, freed, maker, pusher) && t < |phase| && phase[t] == Inside(k)
    requires Finished(p) == k && CountFinished(phase[t := p], k) == |phase|
    ensures freed == k - 1 && pusher == -1
    ensures forall v :: 0 <= v < |phase| && v != t ==> Finished(phase[v]) >= k
  {
    CountAll(phase[t := p], k);
    forall v | 0 <= v < |phase| && v != t ensures Finished(phase[v]) >= k {
      assert phase[t := p][v] == phase[v];
    }
    assert ThreadOk(nowait, phase[t], t, len, reach, freed, maker, pusher);
    var u :| 0 <= u < |phase| && Finished(phase[u]) == freed;
    RolesThere(nowait, phase, len, reach, freed, maker, pusher);
  }

  /** A thread that waits at a barrier waits at the one that a thread still inside a construct has ahead. */
  lemma SameBarrier(nowait: seq<bool>, p: Phase, q: Phase, t: int, v: int, len: int, reach: int, freed: nat, maker: int,
                    pusher: int)
    requires ThreadOk(nowait, p, t, len, reach, freed, maker, pusher) && p.Inside? && !nowait[p.k - 1]
    requires ThreadOk(nowait, q, v, len, reach, freed, maker, pusher) && q.Waiting?
    ensures q.k == p.k
  {
    assert !nowait[q.k - 1];
  }

  /** The last thread to arrive at a barrier: all the others wait at the same one. */
  lemma LastArriver(nowait: seq<bool>, phase: seq<Phase>, len: int, reach: int, freed: nat, maker: int, pusher: int,
                    t: nat, k: nat)
    requires ProgressOk(nowait, phase, len, reach, freed, maker, pusher) && t < |phase| && phase[t] == Inside(k)
    requires 1 <= k <= |nowait| && !nowait[k - 1] && CountWaiting(phase) + 1 == |phase|
    ensures freed == k - 1 && pusher == -1
    ensures forall v :: 0 <= v < |phase| && v != t ==> phase[v] == Waiting(k)
  {
    hide CountWaiting, CountFinished;
    OthersWait(phase, t, k);
    assert ThreadOk(nowait, phase[t], t, len, reach, freed, maker, pusher);
    RolesThere(nowait, phase, len, reach, freed, maker, pusher);
    var u :| 0 <= u < |phase| && Finished(phase[u]) == freed;
    forall v | 0 <= v < |phase| && v != t ensures phase[v] == Waiting(k) {
      assert ThreadOk(nowait, phase[v], v, len, reach, freed, maker, pusher);
      SameBarrier(nowait, phase[t], phase[v], t, v, len, reach, freed, maker, pusher);
    }
    hide ThreadOk;
  }

  lemma OthersWait(phase: seq<Phase>, t: nat, k: nat)
    requires t < |phase| && !phase[t].Waiting? && CountWaiting(phase) + 1 == |phase|
    ensures forall v :: 0 <= v < |phase| && v != t ==> phase[v].Waiting?
  {
    CountStep(phase, t, Waiting(k), 0);
    CountAll(phase[t := Waiting(k)], 0);
    forall v | 0 <= v < |phase| && v != t ensures phase[v].Waiting? {
      assert phase[t := Waiting(k)][v].Waiting?;
    }
  }

  /** The share before construct k is freed once everyone has finished construct k. */
  lemma ProgressFree(nowait: seq<bool>, phase: seq<Phase>, phase2: seq<Phase>, len: int, reach: int, freed: nat, maker: int,
                     t: nat, k: nat)
    requires ProgressOk(nowait, phase, len, reach, freed, maker, -1) && t < |phase| && phase[t] == Inside(k)
    requires |phase2| == |phase| && phase2[t] == Freeing(k, Reading) && freed == k - 1
    requires forall v :: 0 <= v < |phase| && v != t ==>
               || (phase2[v] == phase[v] && Finished(phase[v]) >= k)
               || (phase[v] == Waiting(k) && phase2[v] == Held(k))
    ensures ProgressOk(nowait, phase2, len, reach, k, maker, t)
  {
    assert ThreadOk(nowait, phase[t], t, len, reach, freed, maker, -1);
    assert Finished(phase2[t]) == k;
    forall v | 0 <= v < |phase2| ensures ThreadOk(nowait, phase2[v], v, len, reach, k, maker, t) {
      assert ThreadOk(nowait, phase[v], v, len, reach, freed, maker, -1);
    }
  }

  lemma {:induction false} CountEqual(phase: seq<Phase>, phase2: seq<Phase>, j: nat)
    requires |phase| == |phase2|
    requires forall v :: 0 <= v < |phase| ==> (Finished(phase[v]) >= j <==> Finished(phase2[v]) >= j)
    ensures CountFinished(phase, j) == CountFinished(phase2, j)
  {
    if phase != [] {
      CountEqual(phase[1..], phase2[1..], j);
    }
  }

  /** The first share in use is on its way to the free list. */
  lemma MemFree(m: Memory)
    requires MemOk(m) && m.pushing.NoPush? && m.pub >= 1
    ensures m.used != [] && m.used[0] < |m.place|
    ensures MemOk(m.(used := m.used[1..], pub := m.pub - 1, place := m.place[m.used[0] := Pushed], pushed := m.used[0],
                     pushing := Pusher(Reading)))
  {
    UsedTail(m.link, m.used, m.pub, m.busy);
    PlaceFree(m.place, m.alloc, m.free, m.taken, m.used);
    hide ListOk, PlacesOk, UsedOk;
  }

  lemma UsedTail(link: seq<Link>, used: seq<Id>, pub: int, busy: bool)
    requires UsedOk(link, used, pub, busy) && pub >= 1
    ensures used != [] && used[0] < |link| && NoRepeats(used) && UsedOk(link, used[1..], pub - 1, busy)
  {
    var r := used[1..];
    forall j | 0 <= j < pub - 1 ensures link[r[j]] == ShareLink(r[j + 1], false) {
      assert r[j] == used[j + 1] && r[j + 1] == used[j + 2];
    }
  }

  lemma UsedNoRepeats(m: Memory)
    requires MemOk(m)
    ensures NoRepeats(m.used)
  {
    hide ListOk, PlacesOk, MakerOk, PusherOk;
  }

  lemma FinishStays(s: State, t: nat)
    requires Inv(s) && t < s.n && s.phase[t].Inside? && 1 <= s.phase[t].k <= |s.nowait| && s.nowait[s.phase[t].k - 1]
    requires s.cur[t] < |s.completed| && 0 <= s.last[t] < |s.place| && s.completed[s.cur[t]] + 1 != s.n
    ensures Inv(DoFinish(s, t))
  {
    hide Inv, MemOk, MemOf, CountsOk, ProgressOk, PointersOk, ThreadOk, DoFinish;
    Split(s);
    InsideFacts(s, t);
    FinishIs(s, t);
    var k := s.phase[t].k;
    var p, r, reach := Between(k), DoFinish(s, t), Reachable(s.chain, s.phase, s.maker);
    ChainNoRepeats(s);
    CountsFinish(s.nowait, s.phase, s.chain, s.freed, s.completed, s.arrived, t, k, p);
    ProgressFinish(s.nowait, s.phase, |s.chain|, reach, s.freed, s.maker, s.pusher, t, k);
    SameSet(s.cur, t);
    PointersSet(s.cur, s.last, s.phase, s.chain, t, s.cur[t], -1, p);
    SameMemory(s, r, t);
    hide Reachable, CountFinished;
    Join(r, reach);
  }

  lemma FinishIs(s: State, t: nat)
    requires Sizes(s) && t < s.n && s.phase[t].Inside? && 1 <= s.phase[t].k <= |s.nowait| && s.nowait[s.phase[t].k - 1]
    requires s.cur[t] < |s.completed| && 0 <= s.last[t] < |s.place| && s.completed[s.cur[t]] + 1 != s.n
    ensures DoFinish(s, t) == s.(completed := s.completed[s.cur[t] := s.completed[s.cur[t]] + 1], last := s.last[t := -1],
                                 phase := s.phase[t := Between(s.phase[t].k)])
  {
  }

  lemma ChainNoRepeats(s: State)
    requires Sizes(s) && s.freed <= |s.chain| && MemOk(MemOf(s))
    ensures NoRepeats(s.chain[s.freed..])
  {
    hide MemOk;
    UsedNoRepeats(MemOf(s));
  }

  /** A thread that is neither the maker nor the pusher moves without touching links or places. */
  lemma SameMemory(s: State, r: State, t: nat)
    requires Sizes(s) && s.freed <= |s.chain| && Sizes(r) && t < s.n == r.n && t != s.maker && t != s.pusher
    requires r == s.(completed := r.completed, arrived := r.arrived, phase := s.phase[t := r.phase[t]], last := s.last[t := r.last[t]])
    ensures MemOf(r) == MemOf(s) && Reachable(r.chain, r.phase, r.maker) == Reachable(s.chain, s.phase, s.maker)
  {
  }

  lemma ArriveStays(s: State, t: nat)
    requires Inv(s) && t < s.n && s.phase[t].Inside? && 1 <= s.phase[t].k <= |s.nowait| && !s.nowait[s.phase[t].k - 1]
    requires s.cur[t] < |s.completed| && 0 <= s.last[t] < |s.place| && s.arrived + 1 != s.n
    ensures Inv(DoFinish(s, t))
  {
    hide Inv, MemOk, MemOf, CountsOk, ProgressOk, PointersOk, DoFinish, Reachable;
    Facts(s, t);
    Split(s);
    InsideFacts(s, t);
    ArriveIs(s, t);
    var r, p := DoFinish(s, t), Waiting(s.phase[t].k);
    var reach := Reachable(s.chain, s.phase, s.maker);
    SameSet(s.cur, t);
    SameSet(s.last, t);
    SameMemory(s, r, t);
    CountsArrive(s.nowait, s.phase, s.chain, s.freed, s.completed, s.arrived, t, p);
    Moved(s, r, t, reach, reach);
  }

  lemma ArriveIs(s: State, t: nat)
    requires Sizes(s) && t < s.n && s.phase[t].Inside? && 1 <= s.phase[t].k <= |s.nowait| && !s.nowait[s.phase[t].k - 1]
    requires s.cur[t] < |s.completed| && 0 <= s.last[t] < |s.place| && s.arrived + 1 != s.n
    ensures DoFinish(s, t) == s.(arrived := s.arrived + 1, phase := s.phase[t := Waiting(s.phase[t].k)])
  {
  }

  lemma CountsArrive(nowait: seq<bool>, phase: seq<Phase>, chain: seq<Id>, freed: nat, completed: seq<nat>, arrived: nat,
                     t: nat, p: Phase)
    requires CountsOk(nowait, phase, chain, freed, completed, arrived) && t < |phase|
    requires !phase[t].Waiting? && p.Waiting? && Finished(p) == Finished(phase[t]) && arrived + 1 != |phase|
    ensures CountsOk(nowait, phase[t := p], chain, freed, completed, arrived + 1)
  {
    CountStep(phase, t, p, 0);
    forall j | freed < j < |chain| && j <= |nowait| && nowait[j - 1]
      ensures CountFinished(phase[t := p], j) == CountFinished(phase, j)
    {
      CountStep(phase, t, p, j);
    }
  }

  /** From the last finisher's step to the start of the push. */
  lemma FreeInv(s: State, r: State, t: nat, k: nat)
    requires Inv(s) && t < s.n && s.phase[t] == Inside(k) && s.freed == k - 1 && s.pusher == -1
    requires Sizes(r) && |r.completed| == |s.completed| && 0 <= s.last[t] < |s.place|
    requires r == s.(toFree := r.toFree, freed := k, pusher := t, place := s.place[s.last[t] := Pushed], phase := r.phase,
                     completed := r.completed, arrived := r.arrived)
    requires r.phase[t] == Freeing(k, Reading)
    requires forall v :: 0 <= v < s.n && v != t ==>
               || (r.phase[v] == s.phase[v] && Finished(s.phase[v]) >= k)
               || (s.phase[v] == Waiting(k) && r.phase[v] == Held(k))
    requires k < |s.chain| && CountsOk(r.nowait, r.phase, r.chain, k, r.completed, r.arrived)
    ensures Inv(r)
  {
    hide Inv, MemOk, CountsOk, ProgressOk, PointersOk, ThreadOk;
    Facts(s, t);
    Split(s);
    InsideFacts(s, t);
    var m := MemOf(s);
    var reach := Reachable(s.chain, s.phase, s.maker);
    assert Reachable(r.chain, r.phase, r.maker) == reach by {
      assert 0 <= s.maker < s.n ==> (r.phase[s.maker].Created? <==> s.phase[s.maker].Created?);
    }
    ProgressFree(s.nowait, s.phase, r.phase, |s.chain|, reach, s.freed, s.maker, t, k);
    PointersHold(s.cur, s.last, s.phase, r.phase, s.chain, t, k);
    MemFree(m);
    assert m.used[0] == s.chain[s.freed] && s.chain[s.freed..][1..] == s.chain[k..];
    assert MemOf(r) == m.(used := m.used[1..], pub := m.pub - 1, place := m.place[m.used[0] := Pushed], pushed := m.used[0],
                          pushing := Pusher(Reading));
    hide MemOf, Reachable;
    Join(r, reach);
  }

  lemma PointersHold(cur: seq<Id>, last: seq<int>, phase: seq<Phase>, phase2: seq<Phase>, chain: seq<Id>, t: nat, k: nat)
    requires |cur| == |last| == |phase| == |phase2| && PointersOk(cur, last, phase, chain) && t < |phase|
    requires phase[t] == Inside(k) && phase2[t] == Freeing(k, Reading)
    requires forall v :: 0 <= v < |phase| && v != t ==>
               phase2[v] == phase[v] || (phase[v] == Waiting(k) && phase2[v] == Held(k))
    ensures PointersOk(cur, last, phase2, chain)
  {
    forall u | 0 <= u < |phase2| ensures
      var q := phase2[u];
      && 0 <= Current(q) < |chain| && cur[u] == chain[Current(q)]
      && (!q.Between? && !q.Held? ==> q.k >= 1 && last[u] == chain[q.k - 1])
    {
      var was := phase[u];
    }
  }

  lemma FinishFrees(s: State, t: nat)
    requires Inv(s) && t < s.n && s.phase[t].Inside? && 1 <= s.phase[t].k <= |s.nowait| && s.nowait[s.phase[t].k - 1]
    requires s.cur[t] < |s.completed| && 0 <= s.last[t] < |s.place| && s.completed[s.cur[t]] + 1 == s.n
    ensures Inv(DoFinish(s, t))
    ensures forall v :: 0 <= v < s.n && v != t ==> Finished(s.phase[v]) > s.freed
  {
    hide Inv, MemOk, ProgressOk, PointersOk, ThreadOk;
    Split(s);
    InsideFacts(s, t);
    var k, m := s.phase[t].k, MemOf(s);
    var p, r, reach := Freeing(k, Reading), DoFinish(s, t), Reachable(s.chain, s.phase, s.maker);
    UsedNoRepeats(m);
    hide MemOf, Reachable;
    CountsFinish(s.nowait, s.phase, s.chain, s.freed, s.completed, s.arrived, t, k, p);
    LastFinisher(s.nowait, s.phase, |s.chain|, reach, s.freed, s.maker, s.pusher, t, k, p);
    assert CountsOk(r.nowait, r.phase, r.chain, k, r.completed, r.arrived);
    hide CountsOk;
    FreeInv(s, r, t, k);
  }

  lemma ArriveFrees(s: State, t: nat)
    requires Inv(s) && t < s.n && s.phase[t].Inside? && 1 <= s.phase[t].k <= |s.nowait| && !s.nowait[s.phase[t].k - 1]
    requires s.cur[t] < |s.completed| && 0 <= s.last[t] < |s.place| && s.arrived + 1 == s.n
    ensures Inv(DoFinish(s, t))
    ensures forall v :: 0 <= v < s.n && v != t ==> s.phase[v] == Waiting(s.phase[t].k)
  {
    hide Inv, MemOk, ProgressOk, PointersOk, ThreadOk;
    Split(s);
    InsideFacts(s, t);
    var k, r, reach := s.phase[t].k, DoFinish(s, t), Reachable(s.chain, s.phase, s.maker);
    hide MemOf, Reachable;
    LastArriver(s.nowait, s.phase, |s.chain|, reach, s.freed, s.maker, s.pusher, t, k);
    assert forall v :: 0 <= v < s.n && v != t ==> r.phase[v] == Held(k);
    CountNone(r.phase);
    forall j | k < j < |s.chain| && j <= |s.nowait| && s.nowait[j - 1]
      ensures CountFinished(r.phase, j) == CountFinished(s.phase, j)
    {
      CountEqual(s.phase, r.phase, j);
    }
    hide CountFinished, CountWaiting;
    assert CountsOk(r.nowait, r.phase, r.chain, k, r.completed, r.arrived);
    hide CountsOk;
    FreeInv(s, r, t, k);
  }

  lemma FinishInv(s: State, t: nat)
    requires Inv(s) && t < s.n && s.phase[t].Inside? && 1 <= s.phase[t].k <= |s.nowait|
    requires s.cur[t] < |s.completed| && 0 <= s.last[t] < |s.place|
    ensures Inv(DoFinish(s, t))
  {
    hide Inv, DoFinish, MemOk, MemOf, CountsOk, ProgressOk, PointersOk;
    Split(s);
    if s.nowait[s.phase[t].k - 1] {
      if s.completed[s.cur[t]] + 1 == s.n { FinishFrees(s, t); } else { FinishStays(s, t); }
    } else {
      if s.arrived + 1 == s.n { ArriveFrees(s, t); } else { ArriveStays(s, t); }
    }
  }

  // free_work_share.

  lemma MemLink(m: Memory, w: Id, h: int)
    requires MemOk(m) && m.pushing == Pusher(Linking(h)) && m.pushed == w
    ensures w < |m.link| && MemOk(m.(link := m.link[w := FreeLink(h)], pushing := Pusher(Swapping(h))))
  {
    PushApart(m, w);
    OtherList(m.link, m.allocHead, m.alloc, w, FreeLink(h));
    OtherList(m.link, m.freeHead, m.free, w, FreeLink(h));
    OtherUsed(m.link, m.used, m.pub, m.busy, w, FreeLink(h));
    if m.making.Maker? && m.making.a.Cut? {
      OtherList(m.link, m.making.a.nx, m.taken, w, FreeLink(h));
    }
    hide ListOk, PlacesOk, UsedOk;
  }

  lemma PushApart(m: Memory, w: Id)
    requires MemOk(m) && m.pushed == w && m.pushing.Pusher?
    ensures w < |m.link| && w !in m.alloc && w !in m.free && w !in m.taken && w !in m.used
  {
    hide ListOk, UsedOk, MakerOk;
  }

  /** The swap succeeds, because only the thread that frees moves the head of the free list. */
  lemma MemSwap(m: Memory, w: Id, h: int)
    requires MemOk(m) && m.pushing == Pusher(Swapping(h)) && m.pushed == w
    ensures w < |m.link| && m.freeHead == h
    ensures MemOk(m.(freeHead := w, free := [w] + m.free, place := m.place[w := OnFree], pushed := -1, pushing := NoPush))
  {
    PushApart(m, w);
    PlacePush(m.place, m.alloc, m.free, m.taken, m.used, w);
    ListPush(m.link, m.freeHead, m.free, w);
    if m.making.Maker? { MakerStays(m.link, m.making.a, m.alloc, m.free, m.taken, w); }
    hide ListOk, PlacesOk, UsedOk, MakerOk;
  }

  lemma ListPush(link: seq<Link>, head: int, a: seq<Id>, w: Id)
    requires ListOk(link, head, a) && w < |link| && link[w] == FreeLink(head) && w !in a
    ensures ListOk(link, w, [w] + a)
  {
    var r := [w] + a;
    forall i | 0 <= i < |r| ensures link[r[i]] == FreeLink(NextIn(r, i)) {
      if i > 0 { assert r[i] == a[i - 1] && NextIn(r, i) == NextIn(a, i - 1); }
    }
  }

  /** What the allocating thread has seen stays true when a block is pushed in front. */
  lemma MakerStays(link: seq<Link>, a: Alloc, alloc: seq<Id>, free: seq<Id>, taken: seq<Id>, w: Id)
    requires MakerOk(link, a, alloc, free, taken)
    ensures MakerOk(link, a, alloc, [w] + free, taken)
  {
    if a.Second? {
      var i :| 0 <= i < |free| - 1 && free[i] == a.h && free[i + 1] == a.nx;
      var r := [w] + free;
      assert r[i + 1] == a.h && r[i + 2] == a.nx;
    }
  }

  lemma PushMoves(s: State, t: nat)
    requires Inv(s) && t < s.n && s.phase[t].Freeing? && !s.phase[t].f.Swapping? && 0 <= s.last[t] < |s.link|
    ensures Inv(DoPush(s, t))
  {
    hide Inv, CountsOk, ProgressOk, PointersOk, MemOk, MemOf, Reachable, DoPush;
    Facts(s, t);
    InsideFacts(s, t);
    Split(s);
    PushIs(s, t);
    PushMemory(s, t);
    var r, reach := DoPush(s, t), Reachable(s.chain, s.phase, s.maker);
    CountsSame(s.nowait, s.phase, s.chain, s.freed, s.completed, s.arrived, t, r.phase[t]);
    SameSet(s.cur, t);
    SameSet(s.last, t);
    Moved(s, r, t, reach, reach);
  }

  lemma PushIs(s: State, t: nat)
    requires Sizes(s) && t < s.n && s.phase[t].Freeing? && !s.phase[t].f.Swapping? && 0 <= s.last[t] < |s.link|
    ensures var r := DoPush(s, t);
            && r == s.(link := r.link, phase := s.phase[t := r.phase[t]]) && |r.link| == |s.link| && |r.phase| == |s.phase|
            && r.phase[t].Freeing? && r.phase[t].k == s.phase[t].k
            && (if s.phase[t].f.Linking? then r.link == s.link[s.last[t] := FreeLink(s.phase[t].f.h)] && r.phase[t].f == Swapping(s.phase[t].f.h)
                else r.link == s.link && r.phase[t].f == Linking(s.freeHead))
  {
  }

  lemma PushMemory(s: State, t: nat)
    requires Sizes(s) && s.freed <= |s.chain| && t < s.n && t == s.pusher && t != s.maker && MemOk(MemOf(s))
    requires s.phase[t].Freeing? && !s.phase[t].f.Swapping? && 0 <= s.last[t] < |s.link|
    ensures var r := DoPush(s, t);
            Sizes(r) && r.freed <= |r.chain| && MemOk(MemOf(r)) && Reachable(r.chain, r.phase, r.maker) == Reachable(s.chain, s.phase, s.maker)
  {
    hide DoPush, ListOk, PlacesOk, UsedOk, MakerOk;
    PushIs(s, t);
    var r, m := DoPush(s, t), MemOf(s);
    if s.phase[t].f.Linking? { MemLink(m, s.last[t], s.phase[t].f.h); }
    assert MemOf(r) == m.(link := r.link, pushing := Pusher(r.phase[t].f));
  }

  lemma ProgressRelease(nowait: seq<bool>, phase: seq<Phase>, len: int, reach: int, freed: nat, maker: int, t: nat, k: nat)
    requires ProgressOk(nowait, phase, len, reach, freed, maker, t) && t < |phase| && phase[t].Freeing? && phase[t].k == k
    ensures ProgressOk(nowait, Open(phase)[t := Between(k)], len, reach, freed, maker, -1)
  {
    var ph := Open(phase)[t := Between(k)];
    assert ThreadOk(nowait, phase[t], t, len, reach, freed, maker, t);
    assert Finished(ph[t]) == freed;
    forall v | 0 <= v < |ph| ensures ThreadOk(nowait, ph[v], v, len, reach, freed, maker, -1) {
      assert ThreadOk(nowait, phase[v], v, len, reach, freed, maker, t);
    }
  }

  lemma CountsRelease(nowait: seq<bool>, phase: seq<Phase>, phase2: seq<Phase>, chain: seq<Id>, freed: nat,
                      completed: seq<nat>, arrived: nat)
    requires CountsOk(nowait, phase, chain, freed, completed, arrived) && |phase2| == |phase|
    requires forall v :: 0 <= v < |phase| ==> Finished(phase2[v]) == Finished(phase[v]) && phase2[v].Waiting? == phase[v].Waiting?
    ensures CountsOk(nowait, phase2, chain, freed, completed, arrived)
  {
    WaitingEqual(phase, phase2);
    forall j | freed < j < |chain| && j <= |nowait| && nowait[j - 1]
      ensures completed[chain[j]] == CountFinished(phase2, j)
    {
      CountEqual(phase, phase2, j);
    }
  }

  lemma {:induction false} WaitingEqual(phase: seq<Phase>, phase2: seq<Phase>)
    requires |phase| == |phase2| && forall v :: 0 <= v < |phase| ==> phase2[v].Waiting? == phase[v].Waiting?
    ensures CountWaiting(phase) == CountWaiting(phase2)
  {
    if phase != [] { WaitingEqual(phase[1..], phase2[1..]); }
  }

  lemma PointersRelease(cur: seq<Id>, last: seq<int>, last2: seq<int>, phase: seq<Phase>, chain: seq<Id>, t: nat, k: nat)
    requires |cur| == |last| == |phase| == |last2| && PointersOk(cur, last, phase, chain) && t < |phase|
    requires phase[t].Freeing? && phase[t].k == k
    requires forall v :: 0 <= v < |phase| && v != t && !phase[v].Held? ==> last2[v] == last[v]
    ensures PointersOk(cur, last2, Open(phase)[t := Between(k)], chain)
  {
    var ph := Open(phase)[t := Between(k)];
    forall u | 0 <= u < |ph| ensures
      var q := ph[u];
      && 0 <= Current(q) < |chain| && cur[u] == chain[Current(q)]
      && (!q.Between? && !q.Held? ==> q.k >= 1 && last2[u] == chain[q.k - 1])
    {
      var was := phase[u];
    }
  }

  lemma PushEnds(s: State, t: nat)
    requires Inv(s) && t < s.n && s.phase[t].Freeing? && s.phase[t].f.Swapping? && 0 <= s.last[t] < |s.link|
    ensures s.freeHead == s.phase[t].f.h && Inv(DoPush(s, t))
  {
    hide Inv, MemOk, CountsOk, ProgressOk, PointersOk, ThreadOk;
    Facts(s, t);
    InsideFacts(s, t);
    Split(s);
    var m, k, reach := MemOf(s), s.phase[t].k, Reachable(s.chain, s.phase, s.maker);
    MemSwap(m, s.last[t], s.phase[t].f.h);
    var r := DoPush(s, t);
    assert Reachable(r.chain, r.phase, r.maker) == reach;
    ProgressRelease(s.nowait, s.phase, |s.chain|, reach, s.freed, s.maker, t, k);
    CountsRelease(s.nowait, s.phase, r.phase, s.chain, s.freed, s.completed, s.arrived);
    PointersRelease(s.cur, s.last, r.last, s.phase, s.chain, t, k);
    assert MemOf(r) == m.(freeHead := s.last[t], free := [s.last[t] as Id] + m.free, place := m.place[s.last[t] := OnFree],
                          pushed := -1, pushing := NoPush);
    hide MemOf, Reachable, Open, OpenLast;
    Join(r, reach);
  }

  // All steps.

  /** What a step relies on: the links it follows are of the right kind, and lead to blocks. */
  ghost predicate Safe(s: State, e: Step)
    requires Sizes(s) && Enabled(s, e)
  {
    match e {
      case Enter(t) => s.link[s.cur[t]].ShareLink?
      case Allocate(t) => AllocSafe(s, s.phase[t].a) && s.chunk >= 1
      case Publish(t) => 0 <= s.last[t] < |s.link|
      case Finish(t) => 1 <= s.phase[t].k <= |s.nowait| && s.cur[t] < |s.completed| && 0 <= s.last[t] < |s.place|
      case PushOn(t) => 0 <= s.last[t] < |s.link|
    }
  }

  ghost function Apply(s: State, e: Step): State
    requires Sizes(s) && Enabled(s, e) && Safe(s, e)
  {
    match e {
      case Enter(t) => DoEnter(s, t)
      case Allocate(t) => DoAllocate(s, t)
      case Publish(t) => DoPublish(s, t)
      case Finish(t) => DoFinish(s, t)
      case PushOn(t) => DoPush(s, t)
    }
  }

  /** No step reads a link of the wrong kind of the union, or a pointer that leads nowhere. */
  lemma StepSafe(s: State, e: Step)
    requires Inv(s) && Enabled(s, e)
    ensures Safe(s, e)
  {
    hide Inv;
    match e {
      case Enter(t) => EnterFacts(s, t);
      case Allocate(t) => AllocateSafe(s, t);
      case Publish(t) => PublishFacts(s, t);
      case Finish(t) => InsideFacts(s, t);
      case PushOn(t) => InsideFacts(s, t);
    }
  }

  lemma StepInv(s: State, e: Step)
    requires Inv(s) && Enabled(s, e) && Safe(s, e)
    ensures Inv(Apply(s, e))
  {
    hide Inv, MemOk, CountsOk, ProgressOk, PointersOk, DoEnter, DoAllocate, DoPublish, DoFinish, DoPush;
    Split(s);
    match e {
      case Enter(t) => EnterInv(s, t);
      case Allocate(t) => AllocateInv(s, t);
      case Publish(t) => PublishInv(s, t);
      case Finish(t) => FinishInv(s, t);
      case PushOn(t) => if s.phase[t].f.Swapping? { PushEnds(s, t); } else { PushMoves(s, t); }
    }
  }

  ghost predicate Leads(s: State, steps: seq<Step>, r: State)
    requires Inv(s)
    decreases |steps|
  {
    if steps == [] then r == s
    else
      && Enabled(s, steps[0])
      && (StepSafe(s, steps[0]); StepInv(s, steps[0]); Leads(Apply(s, steps[0]), steps[1..], r))
  }

  lemma {:induction false} RunInv(s: State, steps: seq<Step>, r: State)
    requires Inv(s) && Leads(s, steps, r)
    ensures Inv(r)
    decreases |steps|
  {
    if steps != [] {
      StepSafe(s, steps[0]);
      StepInv(s, steps[0]);
      hide Inv, Apply, Enabled, Safe;
      RunInv(Apply(s, steps[0]), steps[1..], r);
    }
  }

  /** A run of the team from its start. */
  ghost predicate Run(s: State, steps: seq<Step>, r: State) {
    Initial(s) && (InitialInv(s); Leads(s, steps, r))
  }

  // What holds in every interleaving.

  /** The lists for allocation, the free list, what the allocating thread has cut off, the shares in use and the one block
      on its way to the free list partition the blocks. */
  lemma BlocksPartition(s: State, steps: seq<Step>, r: State, b: Id)
    requires Run(s, steps, r) && b < |r.link|
    ensures r.freed < |r.chain| && |r.place| == |r.link| && |r.last| == |r.phase|
    ensures b in r.alloc <==> r.place[b] == OnAlloc
    ensures b in r.free <==> r.place[b] == OnFree
    ensures b in r.taken <==> r.place[b] == Taken
    ensures b in r.chain[r.freed..] <==> r.place[b] == InUse
    ensures r.place[b] == Pushed <==>
              0 <= r.pusher < |r.phase| && r.phase[r.pusher].Freeing? && b == r.last[r.pusher]
    ensures NoRepeats(r.alloc) && NoRepeats(r.free) && NoRepeats(r.taken) && NoRepeats(r.chain[r.freed..])
  {
    InitialInv(s);
    RunInv(s, steps, r);
    hide Inv, ProgressOk, CountsOk, PointersOk, PusherOk;
    Split(r);
  }

  /** Every share a thread may still dereference is in use: its current one, and while it creates the next, the last. */
  lemma NeverUsedAfterFree(s: State, steps: seq<Step>, r: State, t: nat)
    requires Run(s, steps, r) && t < |r.phase|
    ensures |r.cur| == |r.last| == |r.phase| && r.cur[t] < |r.place| && r.place[r.cur[t]] == InUse
    ensures r.phase[t].Allocating? || r.phase[t].Created? ==> 0 <= r.last[t] < |r.place| && r.place[r.last[t]] == InUse
    ensures r.phase[t].Freeing? ==> 0 <= r.last[t] < |r.place| && r.place[r.last[t]] == Pushed
  {
    hide Inv, Leads, Initial, ProgressOk, CountsOk, PointersOk, ListOk, MakerOk, PusherOk, UsedOk, Reachable;
    InitialInv(s);
    RunInv(s, steps, r);
    Split(r);
    Facts(r, t);
    if r.phase[t].Freeing? { InsideFacts(r, t); }
    var u, c, k := MemOf(r).used, Current(r.phase[t]), r.phase[t].k;
    assert r.freed <= c;
    assert u[c - r.freed] == r.chain[c] && r.cur[t] in u;
    if r.phase[t].Allocating? || r.phase[t].Created? {
      assert u[k - 1 - r.freed] == r.chain[k - 1];
      assert r.chain[k - 1] in u;
    }
  }

  /** One thread creates each share, and two threads at the same construct have the same share. */
  lemma OneShare(s: State, steps: seq<Step>, r: State, t: nat, u: nat)
    requires Run(s, steps, r) && t < |r.phase| && u < |r.phase| && |r.cur| == |r.phase|
    ensures Current(r.phase[t]) == Current(r.phase[u]) ==> r.cur[t] == r.cur[u]
    ensures Making(r.phase[t]) && Making(r.phase[u]) ==> t == u
  {
    InitialInv(s);
    RunInv(s, steps, r);
    Facts(r, t);
    Facts(r, u);
    hide Inv, Reachable;
  }

  predicate Making(p: Phase) {
    p.Allocating? || p.Created?
  }

  /** A share is returned only by the last thread to finish the construct after it, in the order of the constructs, and so
      once. */
  lemma FreedInOrder(s: State, e: Step)
    requires Inv(s) && Enabled(s, e) && Safe(s, e)
    ensures var r := Apply(s, e);
            && s.chain <= r.chain && (r.freed == s.freed || r.freed == s.freed + 1)
            && (r.freed == s.freed + 1 ==>
                  && e.Finish? && s.last[e.t] == s.chain[s.freed] && s.place[s.last[e.t]] == InUse
                  && r.place == s.place[s.last[e.t] := Pushed]
                  && (forall v :: 0 <= v < s.n && v != e.t ==> Finished(s.phase[v]) > s.freed || s.phase[v] == Waiting(s.freed + 1)))
  {
    hide Inv, MemOk, CountsOk, ProgressOk, PointersOk;
    if e.Finish? {
      FreedAtFinish(s, e.t);
    } else {
      hide Index, Mark, Open, OpenLast, MoreLinks, Range;
    }
  }

  lemma FreedAtFinish(s: State, t: nat)
    requires Inv(s) && Enabled(s, Finish(t)) && Safe(s, Finish(t))
    ensures var r := DoFinish(s, t);
            && s.chain == r.chain && (r.freed == s.freed || r.freed == s.freed + 1)
            && (r.freed == s.freed + 1 ==>
                  && s.freed < |s.chain| && s.last[t] == s.chain[s.freed] && s.place[s.last[t]] == InUse
                  && r.place == s.place[s.last[t] := Pushed]
                  && (forall v :: 0 <= v < s.n && v != t ==> Finished(s.phase[v]) > s.freed || s.phase[v] == Waiting(s.freed + 1)))
  {
    hide Inv, MemOk, CountsOk, ProgressOk, PointersOk;
    Split(s);
    InsideFacts(s, t);
    var r, k := DoFinish(s, t), s.phase[t].k;
    if r.freed == s.freed + 1 {
      if s.nowait[k - 1] { FinishFrees(s, t); } else { ArriveFrees(s, t); }
      Split(r);
      NewPusher(r, t);
      assert k == s.freed + 1;
      FirstInUse(s);
    }
  }

  lemma NewPusher(r: State, t: nat)
    requires Inv(r) && t < r.n && r.phase[t].Freeing?
    ensures r.phase[t].k == r.freed
  {
    InsideFacts(r, t);
  }

  lemma FirstInUse(s: State)
    requires Inv(s)
    ensures s.freed < |s.chain| && s.chain[s.freed] < |s.place| && s.place[s.chain[s.freed]] == InUse
  {
    Split(s);
    hide Inv, CountsOk, PointersOk, ProgressOk, ListOk, MakerOk, PusherOk, Reachable;
    assert MemOf(s).used[0] == s.chain[s.freed];
  }

  /** Until every thread has gone through all constructs some step is enabled. */
  lemma NeverStuck(s: State, steps: seq<Step>, r: State) returns (e: Step)
    requires Run(s, steps, r)
    requires exists t :: 0 <= t < |r.phase| && r.phase[t] != Between(|r.nowait|)
    ensures Sizes(r) && Enabled(r, e)
  {
    hide Inv, Leads, Initial, MemOk, MemOf, ProgressOk, CountsOk, PointersOk;
    InitialInv(s);
    RunInv(s, steps, r);
    Split(r);
    if t :| 0 <= t < r.n && Moves(r.phase[t]) {
      e := if r.phase[t].Inside? then Finish(t) else if r.phase[t].Allocating? then Allocate(t)
           else if r.phase[t].Created? then Publish(t) else PushOn(t);
    } else {
      e := BetweenMoves(r);
    }
  }

  predicate Moves(p: Phase) {
    p.Inside? || p.Allocating? || p.Created? || p.Freeing?
  }

  lemma BetweenMoves(r: State) returns (e: Step)
    requires Inv(r) && Sizes(r) && (exists t :: 0 <= t < |r.phase| && r.phase[t] != Between(|r.nowait|))
    requires forall t :: 0 <= t < r.n ==> !Moves(r.phase[t])
    ensures Enabled(r, e)
  {
    hide MemOk, PointersOk, Inv;
    Split(r);
    var reach := Reachable(r.chain, r.phase, r.maker);
    CountAll(r.phase, 0);
    var w :| 0 <= w < r.n && !r.phase[w].Waiting?;
    var t :| 0 <= t < |r.phase| && r.phase[t] != Between(|r.nowait|);
    assert ThreadOk(r.nowait, r.phase[t], t, |r.chain|, reach, r.freed, r.maker, r.pusher);
    assert ThreadOk(r.nowait, r.phase[w], w, |r.chain|, reach, r.freed, r.maker, r.pusher);
    RolesThere(r.nowait, r.phase, |r.chain|, reach, r.freed, r.maker, r.pusher);
    assert r.maker == -1 && r.pusher == -1;
    assert r.phase[w].Between?;
    var u := if r.phase[t].Between? then t else w;
    if r.phase[t].Waiting? {
      assert !r.nowait[r.phase[t].k - 1];
    }
    hide ThreadOk, ProgressOk, CountsOk;
    e := Enter(u);
    NotBusy(r, u);
  }

  lemma NotBusy(r: State, u: nat)
    requires Inv(r) && u < r.n && r.phase[u].Between? && r.maker == -1
    ensures r.cur[u] < |r.link| && !(r.link[r.cur[u]].ShareLink? && r.link[r.cur[u]].busy)
  {
    hide Inv, CountsOk, PointersOk, ProgressOk, MemOk, MemOf, Reachable;
    Facts(r, u);
    Split(r);
    MemChain(r, r.phase[u].k);
    UsedAt(MemOf(r), r.phase[u].k - r.freed);
  }

  lemma HeadsOf(link: seq<Link>, head: int, a: seq<Id>)
    requires ListOk(link, head, a)
    ensures head >= 0 <==> a != []
    ensures a != [] ==> head == a[0] && head < |link| && link[head].FreeLink? && (link[head].next >= 0 <==> |a| > 1)
  {
    HeadIn(a);
    if a != [] { var i := ListMember(link, head, a, a[0]); }
  }

  /** The list without its head, whose first block is taken, and the head left alone. */
  lemma CutTwo(link: seq<Link>, head: int, a: seq<Id>)
    requires ListOk(link, head, a) && |a| > 1
    ensures head == a[0] && a[0] < |link| && link[a[0]].next == a[1] && a[1] < |link| && a[1] != a[0]
    ensures var l := link[a[0] := FreeLink(-1)];
            ListOk(l, a[0], a[..1]) && ListOk(l, l[a[1]].next, a[2..])
  {
    ListPrefix(link, head, a, 0);
    ListSuffix(link, head, a, 0);
    assert link[a[0]] == FreeLink(NextIn(a, 0));
    hide ListOk;
    ListTail(link, a[1], a[1..]);
    var t := a[1..];
    assert t[1..] == a[2..] && a[..0 + 1] == a[..1];
    assert a[0] !in t[1..] by { forall i | 0 <= i < |t[1..]| ensures t[1..][i] in t { assert t[1..][i] == t[i + 1]; } }
    OtherList(link, link[a[1]].next, a[2..], a[0], FreeLink(-1));
  }

  lemma NextLink(was: seq<Link>, base: nat, c: nat, i: nat)
    requires i < c
    ensures was + MoreLinks(base, c)[..i] + [FreeLink(if i + 1 < c then base + i + 1 else -1)] ==
            was + MoreLinks(base, c)[..i + 1]
  {
    assert MoreLinks(base, c)[..i + 1] == MoreLinks(base, c)[..i] + [MoreLinks(base, c)[i]];
  }

  lemma GrownTail(was: seq<Link>, c: nat)
    requires c >= 2
    ensures MoreLinks(|was|, c)[..c] == MoreLinks(|was|, c)
    ensures ListOk(was + MoreLinks(|was|, c), |was| + 1, Range(|was| + 1, |was| + c))
  {
    hide ListOk, MoreLinks, Range;
    GrownList(was, c);
    GrownFirst(was, c);
    ListTail(was + MoreLinks(|was|, c), |was|, Range(|was|, |was| + c));
  }

  lemma GrownFirst(was: seq<Link>, c: nat)
    requires c >= 2
    ensures MoreLinks(|was|, c)[..c] == MoreLinks(|was|, c)
    ensures (was + MoreLinks(|was|, c))[|was|] == FreeLink(|was| + 1)
    ensures Range(|was|, |was| + c)[1..] == Range(|was| + 1, |was| + c) && Range(|was|, |was| + c)[0] == |was|
  {
  }

  // The routines of work.c: allocation without interference, freeing with what other threads do between a read and the swap.

  /** The fields of the team that allocation and freeing use. */
  class Team {
    var link: seq<Link>
    var chunk: nat        // work_share_chunk
    var allocHead: int    // work_share_list_alloc
    var freeHead: int     // work_share_list_free

    constructor ()
      ensures chunk == 8 && |link| == 8 && freeHead == -1 && allocHead == 1
      ensures ListOk(link, allocHead, [1, 2, 3, 4, 5, 6, 7]) && ListOk(link, freeHead, [])
    {
      chunk := 8;
      link := [ShareLink(-1, false), FreeLink(2), FreeLink(3), FreeLink(4), FreeLink(5), FreeLink(6), FreeLink(7), FreeLink(-1)];
      allocHead := 1;
      freeHead := -1;
      new;
      var a := [1, 2, 3, 4, 5, 6, 7];
      assert forall i :: 0 <= i < 7 ==> a[i] == i + 1;
    }

    /** alloc_work_share: from the list for allocation; failing that, everything behind the head of the free list; failing
        that, new blocks. The head of the free list is never taken. */
    method AllocWorkShare(ghost alloc: seq<Id>, ghost free: seq<Id>) returns (ws: Id, ghost alloc2: seq<Id>, ghost free2: seq<Id>)
      requires chunk >= 1 && ListOk(link, allocHead, alloc) && ListOk(link, freeHead, free)
      modifies this
      ensures ListOk(link, allocHead, alloc2) && ListOk(link, freeHead, free2)
      ensures alloc != [] ==> ws == alloc[0] && alloc2 == alloc[1..] && free2 == free && link == old(link)
      ensures alloc == [] && |free| > 1 ==> ws == free[1] && alloc2 == free[2..] && free2 == free[..1] && |link| == |old(link)|
      ensures alloc == [] && |free| <= 1 ==>
                && chunk == 2 * old(chunk) && free2 == free && link == old(link) + MoreLinks(|old(link)|, chunk)
                && ws == |old(link)| && alloc2 == Range(ws + 1, ws + chunk)
    {
      hide ListOk, MoreLinks, Range;
      HeadsOf(link, allocHead, alloc);
      HeadsOf(link, freeHead, free);
      if allocHead >= 0 {
        ListTail(link, allocHead, alloc);
        ws := allocHead;
        allocHead := link[ws].next;
        return ws, alloc[1..], free;
      }
      if freeHead >= 0 {
        if link[freeHead].next >= 0 {
          var next := link[freeHead].next;
          CutTwo(link, freeHead, free);
          link := link[freeHead := FreeLink(-1)];
          allocHead := link[next].next;
          return next, free[2..], free[..1];
        }
      }
      ListNil(link, link + MoreLinks(|link|, 2 * chunk), allocHead, alloc);
      LongerList(link, freeHead, free, MoreLinks(|link|, 2 * chunk));
      ws := NewBlocks();
      return ws, Range(ws + 1, ws + chunk), free;
    }

    /** The allocation of new blocks, and the loop that links them. */
    method NewBlocks() returns (ws: Id)
      requires chunk >= 1
      modifies this`link, this`chunk, this`allocHead
      ensures chunk == 2 * old(chunk) && ws == |old(link)| && link == old(link) + MoreLinks(ws, chunk)
      ensures ListOk(link, allocHead, Range(ws + 1, ws + chunk))
    {
      hide ListOk, MoreLinks, Range;
      ghost var was := link;
      chunk := chunk * 2;
      ws := |link|;
      assert was + MoreLinks(ws, chunk)[..0] == was;
      var i := 0;
      while i < chunk
        invariant 0 <= i <= chunk && |link| == ws + i
        invariant link == was + MoreLinks(ws, chunk)[..i]
        modifies this`link
      {
        NextLink(was, ws, chunk, i);
        link := link + [FreeLink(if i + 1 < chunk then ws + i + 1 else -1)];
        i := i + 1;
      }
      allocHead := ws + 1;
      GrownTail(was, chunk);
    }

    /** __sync_bool_compare_and_swap on the head of the free list. */
    method CompareAndSwap(expected: int, value: int) returns (swapped: bool)
      modifies this`freeHead
      ensures swapped == (old(freeHead) == expected)
      ensures freeHead == if swapped then value else old(freeHead)
    {
      swapped := freeHead == expected;
      if swapped {
        freeHead := value;
      }
    }

    /** Other threads turn the free list into another one, without the block that is being pushed. */
    method Interfere(ws: Id, list: seq<Id>)
      requires FreeList(list, |link|, ws)
      modifies this`link, this`freeHead
      ensures ListOk(link, freeHead, list) && |link| == |old(link)| && (ws < |link| ==> link[ws] == old(link)[ws])
    {
      link := Relinked(link, list);
      freeHead := if list == [] then -1 else list[0];
      RelinkedOk(old(link), list);
    }

    /** free_work_share. The free list is lists[0] when it is called, and lists[1], lists[2] and so on are what the other
        threads turn it into, one after each load of its head. The block ends up in front of the list of that moment at
        which the swap succeeds. */
    method FreeWorkShare(ws: Id, lists: seq<seq<Id>>) returns (ghost k: nat)
      requires lists != [] && ListOk(link, freeHead, lists[0]) && ws < |link|
      requires forall i :: 0 <= i < |lists| ==> FreeList(lists[i], |link|, ws)
      modifies this`link, this`freeHead
      ensures |link| == |old(link)| && k < |lists| && ListOk(link, freeHead, [ws] + lists[k])
    {
      hide ListOk, FreeList;
      var swapped, i := false, 0;
      while !swapped
        invariant 0 <= i < |lists| && |link| == |old(link)|
        invariant if swapped then ListOk(link, freeHead, [ws] + lists[i]) else ListOk(link, freeHead, lists[i])
        decreases |lists| - i, !swapped
      {
        var next := freeHead;
        NotListed(lists[i], |link|, ws);
        OtherList(link, freeHead, lists[i], ws, FreeLink(next));
        link := link[ws := FreeLink(next)];
        ghost var before := i;
        if i + 1 < |lists| {
          i := i + 1;
          Interfere(ws, lists[i]);
        }
        if freeHead == next {
          NotListed(lists[i], |link|, ws);
          ListPush(link, next, lists[i], ws);
        }
        swapped := CompareAndSwap(next, ws);
      }
      k := i;
    }
  }

  /** Blocks of a table of the given size, without ws. */
  ghost predicate FreeList(list: seq<Id>, size: nat, ws: Id) {
    NoRepeats(list) && ws !in list && forall i :: 0 <= i < |list| ==> list[i] < size
  }

  lemma NotListed(list: seq<Id>, size: nat, ws: Id)
    requires FreeList(list, size, ws)
    ensures ws !in list
  {
  }

  /** The links with those of one list in order. */
  function Relinked(link: seq<Link>, list: seq<Id>): (r: seq<Link>)
    ensures |r| == |link|
    ensures forall b :: 0 <= b < |link| && b !in list ==> r[b] == link[b]
  {
    seq(|link|, b requires 0 <= b < |link| => if b in list then FreeLink(NextIn(list, Index(list, b))) else link[b])
  }

  lemma RelinkedOk(link: seq<Link>, list: seq<Id>)
    requires NoRepeats(list) && forall i :: 0 <= i < |list| ==> list[i] < |link|
    ensures ListOk(Relinked(link, list), if list == [] then -1 else list[0], list)
  {
    var r := Relinked(link, list);
    forall i | 0 <= i < |list| ensures r[list[i]] == FreeLink(NextIn(list, i)) {
      IndexUnique(list, i);
    }
  }
}
