/**
  The task scheduler of a team (src/libgomp/task.c) as a state machine.  A step is one critical section
  under task_lock, or the wake-up of a thread sleeping in GOMP_taskwait; steps of different tasks interleave
  in any order.  Intrusive rings are sequences that start at the ring's head pointer.
 */
module TaskScheduler {

  import opened Sequences
  import opened TaskGraph

  /** enum gomp_task_kind. */
  datatype Kind = Implicit | Iffalse | Waiting | Tied

  /** Where the thread that executes a task is. */
  datatype Phase =
    | Running                          // in user code
    | Undeferred(child: Id)            // suspended by an undeferred child
    | InTaskwait                       // between two critical sections of GOMP_taskwait
    | Helping(child: Id)               // running a child from inside GOMP_taskwait
    | Asleep                           // blocked on taskwait_sem
    | AtBarrier(epoch: nat)            // inside gomp_barrier_handle_tasks
    | BarrierRun(epoch: nat, child: Id)

  datatype State = State(
    nthreads: nat,
    g: Graph,
    kind: seq<Kind>,
    children: seq<seq<Id>>,
    queue: seq<Id>,
    taskCount: int,
    queuedCount: int,
    inTaskwait: set<Id>,
    sem: seq<int>,
    phase: seq<Phase>,
    arrived: nat,
    waitingForTasks: bool,
    epoch: nat)

  // ---------------------------------------------------------------------------------------------------
  // Vocabulary

  ghost predicate Shape(s: State) {
    && Shaped(s.g) && s.nthreads <= |s.g.info|
    && |s.kind| == |s.g.info| && |s.children| == |s.g.info| && |s.sem| == |s.g.info| && |s.phase| == |s.g.info|
  }

  /** Deferred, unfinished and waiting for nobody: queued or running. */
  predicate Active(g: Graph, t: Id)
    requires |g.dependees| == |g.info|
  {
    Pending(g, t) && g.dependees[t] == 0
  }

  ghost function ActiveSet(g: Graph): set<Id>
    requires |g.dependees| == |g.info|
  {
    set t: Id | t < |g.info| && Active(g, t)
  }

  /** The task is executing user code. */
  predicate CanAct(s: State, t: Id)
    requires |s.kind| == |s.phase| == |s.g.info|
  {
    Live(s.g, t) && s.kind[t] != Waiting && s.phase[t] == Running
  }

  ghost predicate ChildrenDone(g: Graph, t: Id) {
    forall c: Id :: Child(g, t, c) ==> c in g.done
  }

  /** The part of the team queue that belongs to parent p. */
  function Restrict(g: Graph, queue: seq<Id>, p: Id): (r: seq<Id>)
    ensures forall c: Id :: c in r <==> c in queue && Child(g, p, c)
  {
    if queue == [] then []
    else if Child(g, p, queue[0]) then [queue[0]] + Restrict(g, queue[1..], p)
    else Restrict(g, queue[1..], p)
  }

  // ---------------------------------------------------------------------------------------------------
  // Steps

  /** A team whose implicit tasks have just started. */
  function Init(n: nat): State {
    State(n,
      Graph(seq(n, t requires 0 <= t => Info(t, [], 0, false)), {}, seq(n, t => []), seq(n, t => 0), map[], {}),
      seq(n, t => Implicit), seq(n, t => []), [], 0, 0, {}, seq(n, t => 0), seq(n, t => Running), 0, false, 0)
  }

  /** Insertion at the head of the parent's ring and at the tail of the queue (task.c:367-404). */
  function Enqueue(s: State, t: Id, p: Id): State
    requires p < |s.children|
  {
    s.(children := s.children[p := [t] + s.children[p]], queue := s.queue + [t],
       taskCount := s.taskCount + 1, queuedCount := s.queuedCount + 1)
  }

  /** One more task record. */
  function Extend(s: State, g: Graph, k: Kind): State {
    s.(g := g, kind := s.kind + [k], children := s.children + [[]], sem := s.sem + [0], phase := s.phase + [Running])
  }

  /** GOMP_task, given the graph after the depend loop. */
  function Extended(s: State, h: Graph, p: Id): (r: State)
    requires |h.dependees| == |h.info| == |s.g.info| + 1 && p < |s.children|
    ensures r.g == h
  {
    var s1 := Extend(s, h, Waiting);
    if h.dependees[|s.g.info|] == 0 then Enqueue(s1, |s.g.info|, p) else s1
  }

  /** GOMP_task, deferred branch (task.c:216-408). */
  function Create(s: State, p: Id, depend: seq<Addr>, nout: nat): State
    requires Shape(s) && p < |s.g.info|
  {
    Extended(s, Spawn(s.g, p, depend, nout), p)
  }

  ghost predicate MayCreate(s: State, p: Id)
    requires Shape(s)
  {
    CanAct(s, p)
  }

  /** GOMP_task, undeferred branch: the parent is suspended until the child ends (task.c:174-214). */
  function RunUndeferred(s: State, p: Id, depend: seq<Addr>, nout: nat): State
    requires Shape(s) && p < |s.g.info|
  {
    var s1 := Extend(s, SpawnUndeferred(s.g, p, depend, nout), Iffalse);
    s1.(phase := s1.phase[p := Undeferred(|s.g.info|)])
  }

  ghost predicate MayRunUndeferred(s: State, p: Id, depend: seq<Addr>, nout: nat)
    requires Shape(s)
  {
    CanAct(s, p) && !MustDefer(s.g, p, depend, nout)
  }

  function EndUndeferred(s: State, c: Id): State
    requires Shape(s) && c < |s.g.info| && s.g.info[c].parent < |s.g.info|
  {
    s.(g := s.g.(done := s.g.done + {c}), phase := s.phase[s.g.info[c].parent := Running])
  }

  ghost predicate MayEndUndeferred(s: State, c: Id)
    requires Shape(s)
  {
    CanAct(s, c) && s.kind[c] == Iffalse && ChildrenDone(s.g, c)
  }

  /** gomp_task_run_pre: leave the queue, become TIED; the parent's head pointer moves past the task. */
  function RunPre(s: State, c: Id): State
    requires Shape(s) && c < |s.g.info| && s.g.info[c].parent < |s.g.info|
  {
    var p := s.g.info[c].parent;
    var ring := s.children[p];
    s.(children := if ring != [] && ring[0] == c then s.children[p := ring[1..] + [c]] else s.children,
       queue := Minus(s.queue, c), kind := s.kind[c := Tied], queuedCount := s.queuedCount - 1)
  }

  /** The dependers that the end of c sets free, in order (task.c:482-486). */
  function Freed(dependees: seq<int>, vs: seq<Id>): (r: seq<Id>)
    ensures forall v: Id :: v in r <==> v in vs && v < |dependees| && dependees[v] == 1
  {
    if vs == [] then []
    else if vs[0] < |dependees| && dependees[vs[0]] == 1 then [vs[0]] + Freed(dependees, vs[1..])
    else Freed(dependees, vs[1..])
  }

  function Signal(s: State, p: Id): State
    requires p < |s.sem|
  {
    if p in s.inTaskwait then s.(inTaskwait := s.inTaskwait - {p}, sem := s.sem[p := s.sem[p] + 1]) else s
  }

  /** gomp_task_run_post_handle_depend (task.c:447-561). */
  function HandleDepend(s: State, c: Id): (r: State)
    requires Shape(s) && c < |s.g.info| && s.g.info[c].parent < |s.g.info|
    ensures Shape(r) && |r.g.info| == |s.g.info|
  {
    var p := s.g.info[c].parent;
    var ready := Freed(s.g.dependees, s.g.dependers[c]);
    var s1 := s.(g := Retire(s.g, c),
                 children := s.children[p := Reverse(ready) + s.children[p]], queue := s.queue + ready,
                 taskCount := s.taskCount + |ready|, queuedCount := s.queuedCount + |ready|);
    if ready != [] then Signal(s1, p) else s1
  }

  /** gomp_task_run_post_remove_parent; GOMP_taskwait has its own copy, which does not signal (task.c:572-598, 809-817). */
  function RemoveParent(s: State, c: Id, signal: bool): State
    requires Shape(s) && c < |s.g.info| && s.g.info[c].parent < |s.g.info|
  {
    var p := s.g.info[c].parent;
    var s1 := s.(children := s.children[p := Minus(s.children[p], c)]);
    if signal && s1.children[p] == [] then Signal(s1, p) else s1
  }

  /** Everything that happens under the lock when a deferred task has run, but for the barrier. */
  function Finish(s: State, c: Id, signal: bool): State
    requires Shape(s) && c < |s.g.info| && s.g.info[c].parent < c
  {
    var s1 := HandleDepend(s, c);
    var s2 := RemoveParent(s1, c, signal);
    s2.(taskCount := s2.taskCount - 1)
  }

  function SetPhase(s: State, t: Id, ph: Phase): State
    requires t < |s.phase|
  {
    s.(phase := s.phase[t := ph])
  }

  /** The unlocked test at the start of GOMP_taskwait (task.c:745-747). */
  function TaskwaitEnter(s: State, p: Id): State
    requires Shape(s) && p < |s.g.info|
  {
    if s.children[p] == [] then s else SetPhase(s, p, InTaskwait)
  }

  /** One pass through the loop of GOMP_taskwait up to the unlock (task.c:750-786). */
  function TaskwaitPass(s: State, p: Id): State
    requires Shape(s) && p < |s.g.info|
    requires forall c: Id :: c in s.children[p] ==> c < |s.g.info| && s.g.info[c].parent == p
  {
    if s.children[p] == [] then SetPhase(s, p, Running)
    else
      var c := s.children[p][0];
      assert c in s.children[p];
      if s.kind[c] == Waiting then SetPhase(RunPre(s, c), p, Helping(c))
      else SetPhase(s.(inTaskwait := s.inTaskwait + {p}), p, Asleep)
  }

  function TaskwaitEnd(s: State, p: Id): State
    requires Shape(s) && p < |s.g.info| && s.phase[p].Helping?
    requires s.phase[p].child < |s.g.info| && s.g.info[s.phase[p].child].parent < s.phase[p].child
  {
    SetPhase(Finish(s, s.phase[p].child, false), p, InTaskwait)
  }

  /** gomp_sem_wait returns. */
  function Wake(s: State, p: Id): State
    requires p < |s.sem| && p < |s.phase|
  {
    SetPhase(s.(sem := s.sem[p := s.sem[p] - 1]), p, InTaskwait)
  }

  /** gomp_team_barrier_done. */
  function BarrierDone(s: State): State {
    s.(epoch := s.epoch + 1, arrived := 0, waitingForTasks := false)
  }

  /** A thread reaches the barrier; the last one looks at task_count (task.c:645-656). */
  function BarrierArrive(s: State, i: Id): State
    requires i < |s.phase|
  {
    var s1 := SetPhase(s, i, AtBarrier(s.epoch)).(arrived := s.arrived + 1);
    if s1.arrived != s.nthreads then s1
    else if s.taskCount == 0 then BarrierDone(s1)
    else s1.(waitingForTasks := true)
  }

  function BarrierTake(s: State, i: Id): State
    requires Shape(s) && i < |s.g.info| && s.phase[i].AtBarrier? && s.queue != []
    requires s.queue[0] < |s.g.info| && s.g.info[s.queue[0]].parent < |s.g.info|
  {
    SetPhase(RunPre(s, s.queue[0]), i, BarrierRun(s.phase[i].epoch, s.queue[0]))
  }

  function BarrierEnd(s: State, i: Id): State
    requires Shape(s) && i < |s.g.info| && s.phase[i].BarrierRun?
    requires s.phase[i].child < |s.g.info| && s.g.info[s.phase[i].child].parent < s.phase[i].child
  {
    var s1 := SetPhase(Finish(s, s.phase[i].child, true), i, AtBarrier(s.phase[i].epoch));
    if s1.taskCount == 0 && s1.waitingForTasks then BarrierDone(s1) else s1
  }

  // ---------------------------------------------------------------------------------------------------
  // Invariant

  ghost predicate Roles(s: State)
    requires Shape(s)
  {
    forall t: Id :: t < |s.g.info| ==>
      && (t < s.nthreads <==> s.kind[t] == Implicit)
      && (t < s.nthreads ==> s.g.info[t].parent == t && t !in s.g.done)
      && (t >= s.nthreads ==> s.g.info[t].parent < t)
      && (s.g.info[t].deferred <==> s.kind[t] == Waiting || s.kind[t] == Tied)
      && (s.kind[t] == Tied ==> s.g.dependees[t] == 0)
  }

  ghost predicate QueueOk(s: State)
    requires Shape(s)
  {
    && NoRepeats(s.queue)
    && (forall c: Id :: c in s.queue <==> c < |s.g.info| && Active(s.g, c) && s.kind[c] == Waiting)
  }

  /** A ring lists the unblocked, unfinished children of p. */
  ghost predicate RingMembers(g: Graph, p: Id, ring: seq<Id>)
    requires Shaped(g)
  {
    && NoRepeats(ring)
    && (forall c: Id :: c in ring <==> Child(g, p, c) && Active(g, c))
  }

  /** First the waiting children, newest first, then the tied ones. */
  ghost predicate RingShape(kind: seq<Kind>, ring: seq<Id>, w: seq<Id>) {
    && |w| <= |ring| && ring[..|w|] == Reverse(w)
    && (forall j :: |w| <= j < |ring| ==> ring[j] < |kind| && kind[ring[j]] == Tied)
  }

  ghost predicate RingOk(s: State, p: Id)
    requires Shape(s) && p < |s.g.info|
  {
    RingMembers(s.g, p, s.children[p]) && RingShape(s.kind, s.children[p], Restrict(s.g, s.queue, p))
  }

  ghost predicate RingsOk(s: State)
    requires Shape(s)
  {
    forall p: Id :: p < |s.g.info| ==> RingOk(s, p)
  }

  ghost predicate CountsRight(s: State)
    requires Shape(s)
  {
    s.taskCount == |ActiveSet(s.g)| && s.queuedCount == |s.queue|
  }

  /** Data that does not involve the threads. */
  ghost predicate DataInv(s: State) {
    Shape(s) && Inv(s.g) && Roles(s) && QueueOk(s) && RingsOk(s) && CountsRight(s)
  }

  // ---------------------------------------------------------------------------------------------------
  // Sequence facts

  lemma RestrictAppend(g: Graph, a: seq<Id>, b: seq<Id>, p: Id)
    ensures Restrict(g, a + b, p) == Restrict(g, a, p) + Restrict(g, b, p)
  {
    if a == [] {
      assert a + b == b;
    } else {
      assert (a + b)[0] == a[0] && (a + b)[1..] == a[1..] + b;
      RestrictAppend(g, a[1..], b, p);
    }
  }

  lemma RestrictMinus(g: Graph, queue: seq<Id>, c: Id, p: Id)
    ensures Restrict(g, Minus(queue, c), p) == Minus(Restrict(g, queue, p), c)
  {
    if queue != [] {
      RestrictMinus(g, queue[1..], c, p);
      if Child(g, p, queue[0]) {
        MinusAppend([queue[0]], Restrict(g, queue[1..], p), c);
      }
      if queue[0] != c {
        RestrictAppend(g, [queue[0]], Minus(queue[1..], c), p);
        assert Restrict(g, [queue[0]], p) == if Child(g, p, queue[0]) then [queue[0]] else [];
      }
    }
  }

  lemma RestrictNoRepeats(g: Graph, queue: seq<Id>, p: Id)
    requires NoRepeats(queue)
    ensures NoRepeats(Restrict(g, queue, p))
  {
    if queue != [] {
      RestrictNoRepeats(g, queue[1..], p);
      if Child(g, p, queue[0]) {
        var r := Restrict(g, queue[1..], p);
        forall j | 0 <= j < |r| ensures queue[0] != r[j] {
          assert r[j] in r;
          assert r[j] in queue[1..];
        }
      }
    }
  }

  lemma RestrictCong(g: Graph, h: Graph, queue: seq<Id>, p: Id)
    requires forall k :: 0 <= k < |queue| ==> (Child(g, p, queue[k]) <==> Child(h, p, queue[k]))
    ensures Restrict(g, queue, p) == Restrict(h, queue, p)
  {
    if queue != [] {
      assert Child(g, p, queue[0]) <==> Child(h, p, queue[0]);
      RestrictCong(g, h, queue[1..], p);
    }
  }

  lemma RestrictNone(g: Graph, queue: seq<Id>, p: Id)
    requires forall k :: 0 <= k < |queue| ==> !Child(g, p, queue[k])
    ensures Restrict(g, queue, p) == []
  {
  }

  lemma ReverseAppend<T>(a: seq<T>, b: seq<T>)
    ensures Reverse(a + b) == Reverse(b) + Reverse(a)
  {
  }

  // ---------------------------------------------------------------------------------------------------
  // The data invariant step by step

  /** Tasks older than t look the same in both graphs. */
  ghost predicate SameBelow(g: Graph, h: Graph, t: Id)
    requires Shaped(g) && Shaped(h)
  {
    && |g.info| == t && |h.info| == t + 1 && h.done == g.done
    && (forall u: Id :: u < t ==> h.info[u] == g.info[u] && h.dependees[u] == g.dependees[u])
  }

  lemma SpawnSame(g: Graph, p: Id, depend: seq<Addr>, nout: nat)
    requires Inv(g) && Live(g, p)
    ensures SameBelow(g, Spawn(g, p, depend, nout), |g.info|) && Pending(Spawn(g, p, depend, nout), |g.info|)
    ensures Inv(Spawn(g, p, depend, nout)) && Spawn(g, p, depend, nout).info == g.info + [Info(p, depend, nout, true)]
  {
    SpawnInv(g, p, depend, nout);
  }

  lemma ExtendCounts(g: Graph, h: Graph, t: Id)
    requires Shaped(g) && Shaped(h) && SameBelow(g, h, t)
    ensures ActiveSet(h) == if Active(h, t) then ActiveSet(g) + {t} else ActiveSet(g)
  {
    forall u: Id | u < t ensures Active(h, u) <==> Active(g, u) {}
  }

  ghost predicate QueueBounded(s: State)
    requires Shape(s)
  {
    forall k :: 0 <= k < |s.queue| ==> s.queue[k] < |s.g.info|
  }

  /** The ring of an older task when task t is added but not inserted. */
  lemma ExtendRing(s: State, h: Graph, k: Kind, q: Id)
    requires Shape(s) && QueueBounded(s) && q < |s.g.info| && RingOk(s, q)
    requires Shaped(h) && SameBelow(s.g, h, |s.g.info|)
    ensures var s1 := Extend(s, h, k);
      && NoRepeats(s1.children[q]) && RingShape(s1.kind, s1.children[q], Restrict(h, s.queue, q))
      && (forall c: Id :: c in s1.children[q] <==> c < |s.g.info| && Child(h, q, c) && Active(h, c))
  {
    forall k | 0 <= k < |s.queue| ensures Child(s.g, q, s.queue[k]) <==> Child(h, q, s.queue[k]) {}
    RestrictCong(s.g, h, s.queue, q);
    forall c: Id | c < |s.g.info| ensures Child(h, q, c) && Active(h, c) <==> Child(s.g, q, c) && Active(s.g, c) {}
  }

  /** A task inserted at the head of the ring and at the tail of the queue. */
  lemma PushWaiting(kind: seq<Kind>, ring: seq<Id>, w: seq<Id>, t: Id)
    requires RingShape(kind, ring, w)
    ensures RingShape(kind, [t] + ring, w + [t])
  {
    assert Reverse(w + [t]) == [t] + Reverse(w);
    assert ([t] + ring)[..|w| + 1] == [t] + ring[..|w|];
  }

  /** The graph of s with one more deferred task, under p. */
  ghost predicate Grown(s: State, h: Graph, p: Id)
    requires Shape(s)
  {
    && Shaped(h) && SameBelow(s.g, h, |s.g.info|) && p < |s.g.info|
    && h.info[|s.g.info|].parent == p && Pending(h, |s.g.info|)
  }

  lemma GrownFacts(s: State, h: Graph, p: Id, q: Id)
    requires Shape(s) && Grown(s, h, p) && q < |s.g.info|
    ensures Shaped(h) && SameBelow(s.g, h, |s.g.info|) && |h.info| == |s.g.info| + 1 && p < |s.children|
    ensures Child(h, q, |s.g.info|) <==> q == p
  {
  }

  /** The fields of GOMP_task's new state. */
  lemma ExtendedParts(s: State, h: Graph, p: Id, q: Id)
    requires Shape(s) && Shaped(h) && |h.info| == |s.g.info| + 1 && p < |s.children| && q < |s.children| && Pending(h, |s.g.info|)
    ensures var r, t := Extended(s, h, p), |s.g.info|;
            && Shape(r) && r.kind == s.kind + [Waiting]
            && r.queue == (if Active(h, t) then s.queue + [t] else s.queue)
            && r.children[q] == (if q == p && Active(h, t) then [t] + s.children[q] else s.children[q])
  {
  }

  /** The ring of an older task q after GOMP_task has added a task under p. */
  lemma CreateRing(s: State, h: Graph, p: Id, q: Id)
    requires Shape(s) && QueueBounded(s) && Grown(s, h, p) && q < |s.g.info| && RingOk(s, q)
    ensures Shape(Extended(s, h, p)) && RingOk(Extended(s, h, p), q)
  {
    hide SameBelow, RingShape, RingOk, QueueBounded, RingMembers, NoRepeats, Restrict, Extended, Pending, Active, Child;
    var t := |s.g.info|;
    var ring := s.children[q];
    GrownFacts(s, h, p, q);
    ExtendRing(s, h, Waiting, q);
    CreateMembers(h, t, q, ring);
    PushWaiting(s.kind + [Waiting], ring, Restrict(h, s.queue, q), t);
    RestrictSnoc(h, s.queue, t, q);
    ExtendedParts(s, h, p, q);
    CreateRingParts(Extended(s, h, p), q);
  }

  lemma RestrictSnoc(g: Graph, queue: seq<Id>, t: Id, q: Id)
    ensures Restrict(g, queue + [t], q) == if Child(g, q, t) then Restrict(g, queue, q) + [t] else Restrict(g, queue, q)
  {
    RestrictAppend(g, queue, [t], q);
  }

  lemma CreateRingParts(r: State, q: Id)
    requires Shape(r) && q < |r.g.info|
    requires RingMembers(r.g, q, r.children[q]) && RingShape(r.kind, r.children[q], Restrict(r.g, r.queue, q))
    ensures RingOk(r, q)
  {
  }

  lemma CreateMembers(h: Graph, t: Id, q: Id, ring: seq<Id>)
    requires Shaped(h) && |h.info| == t + 1 && NoRepeats(ring)
    requires forall c: Id :: c in ring <==> c < t && Child(h, q, c) && Active(h, c)
    ensures RingMembers(h, q, if Child(h, q, t) && Active(h, t) then [t] + ring else ring)
  {
  }

  /** The ring of the new task is empty. */
  lemma CreateOwnRing(s: State, h: Graph, p: Id)
    requires Shape(s) && QueueBounded(s) && Grown(s, h, p)
    ensures Shape(Extended(s, h, p)) && RingOk(Extended(s, h, p), |s.g.info|)
  {
    RestrictNone(h, s.queue, |s.g.info|);
    RestrictNone(h, s.queue + [|s.g.info|], |s.g.info|);
  }

  lemma CreateQueue(s: State, h: Graph, p: Id)
    requires Shape(s) && QueueBounded(s) && QueueOk(s) && Grown(s, h, p)
    ensures Shape(Extended(s, h, p)) && QueueOk(Extended(s, h, p))
  {
    var r := Extended(s, h, p);
    assert NoRepeats(r.queue);
    forall c: Id ensures c in r.queue <==> c < |r.g.info| && Active(r.g, c) && r.kind[c] == Waiting {
      if c < |s.g.info| { assert r.kind[c] == s.kind[c]; }
    }
  }

  lemma CreateData(s: State, p: Id, depend: seq<Addr>, nout: nat)
    requires DataInv(s) && Live(s.g, p)
    ensures DataInv(Create(s, p, depend, nout))
  {
    hide Inv, QueueOk, RingOk, Roles, CountsRight, Extended;
    SpawnSame(s.g, p, depend, nout);
    var t := |s.g.info|;
    var h := Spawn(s.g, p, depend, nout);
    assert Grown(s, h, p);
    hide SameBelow;
    QueueIsBounded(s);
    CreateQueue(s, h, p);
    CreateOwnRing(s, h, p);
    forall q: Id | q < t ensures RingOk(Extended(s, h, p), q) {
      assert RingOk(s, q);
      CreateRing(s, h, p, q);
    }
    CreateRoles(s, h, p);
    CreateCounts(s, h, p);
  }

  lemma CreateRoles(s: State, h: Graph, p: Id)
    requires Shape(s) && Grown(s, h, p) && Roles(s) && h.info[|s.g.info|].deferred
    ensures Shape(Extended(s, h, p)) && Roles(Extended(s, h, p))
  {
    var r := Extended(s, h, p);
    forall t: Id | t < |s.g.info| ensures r.kind[t] == s.kind[t] && h.info[t] == s.g.info[t] && h.dependees[t] == s.g.dependees[t] {}
  }

  lemma CreateCounts(s: State, h: Graph, p: Id)
    requires Shape(s) && Grown(s, h, p) && CountsRight(s)
    ensures Shape(Extended(s, h, p)) && CountsRight(Extended(s, h, p))
  {
    ExtendCounts(s.g, h, |s.g.info|);
  }

  lemma QueueIsBounded(s: State)
    requires Shape(s) && QueueOk(s)
    ensures QueueBounded(s)
  {
    assert forall k :: 0 <= k < |s.queue| ==> s.queue[k] in s.queue;
  }

  // Undeferred tasks never enter a ring.

  lemma RunUndeferredData(s: State, p: Id, depend: seq<Addr>, nout: nat)
    requires DataInv(s) && Live(s.g, p)
    ensures DataInv(RunUndeferred(s, p, depend, nout))
  {
    hide Inv, QueueOk, RingShape, Roles, CountsRight;
    var t := |s.g.info|;
    var h := SpawnUndeferred(s.g, p, depend, nout);
    AppendInv(s.g, Info(p, depend, nout, false));
    QueueIsBounded(s);
    var r := RunUndeferred(s, p, depend, nout);
    assert SameBelow(s.g, h, t);
    RestrictNone(h, s.queue, t);
    forall q: Id | q <= t ensures RingOk(r, q) {
      if q < t {
        assert RingOk(s, q);
        ExtendRing(s, h, Iffalse, q);
      } else {
        assert RingShape(r.kind, [], []) by { RunUndeferredEmpty(r.kind); }
      }
    }
    RunUndeferredRest(s, p, depend, nout);
  }

  lemma RunUndeferredEmpty(kind: seq<Kind>)
    ensures RingShape(kind, [], [])
  {
  }

  lemma RunUndeferredRest(s: State, p: Id, depend: seq<Addr>, nout: nat)
    requires Shape(s) && QueueOk(s) && Roles(s) && CountsRight(s) && p < |s.g.info|
    ensures var r := RunUndeferred(s, p, depend, nout); QueueOk(r) && Roles(r) && CountsRight(r)
  {
    var r := RunUndeferred(s, p, depend, nout);
    var h := SpawnUndeferred(s.g, p, depend, nout);
    ExtendCounts(s.g, h, |s.g.info|);
    QueueIsBounded(s);
    forall c: Id ensures c in r.queue <==> c < |r.g.info| && Active(r.g, c) && r.kind[c] == Waiting {
      if c < |s.g.info| { assert r.kind[c] == s.kind[c] && h.info[c] == s.g.info[c]; }
    }
  }

  lemma WithoutAbsent(c: seq<Entry>, t: Id)
    requires forall k :: 0 <= k < |c| ==> c[k].task != t
    ensures Without(c, t) == c
  {
  }

  /** The end of an undeferred task has nothing to remove from the graph. */
  lemma EndUndeferredIsRetire(g: Graph, c: Id)
    requires Inv(g) && Live(g, c) && !g.info[c].deferred
    ensures g.(done := g.done + {c}) == Retire(g, c)
  {
    assert g.dependers[c] == [] by {
      if g.dependers[c] != [] { assert Edge(g, c, g.dependers[c][0]); }
    }
    forall k | k in g.chains ensures Without(g.chains[k], c) == g.chains[k] && g.chains[k] != [] {
      var ch := Chain(g, k.0, k.1);
      assert ChainOk(g, k.0, k.1, ch);
      forall j | 0 <= j < |ch| ensures ch[j].task != c { assert ch[j] in ch; }
      WithoutAbsent(ch, c);
    }
    assert RetiredChains(g, c) == g.chains;
    assert Retire(g, c).dependees == g.dependees;
  }

  /** An undeferred task waits for nobody in the graph. */
  lemma NoDependees(g: Graph, c: Id)
    requires Inv(g) && Live(g, c) && !g.info[c].deferred
    ensures g.dependees[c] == 0
  {
    if u: Id :| u in Preds(g, c) { assert Edge(g, u, c); }
    assert Preds(g, c) == {};
  }

  lemma EndUndeferredData(s: State, c: Id)
    requires DataInv(s) && s.nthreads <= c && Live(s.g, c) && s.kind[c] == Iffalse && ChildrenDone(s.g, c)
    ensures DataInv(EndUndeferred(s, c))
  {
    hide Inv, QueueOk, RingOk, CountsRight;
    assert !s.g.info[c].deferred && s.g.info[c].parent < c;
    EndUndeferredIsRetire(s.g, c);
    NoDependees(s.g, c);
    RetireInv(s.g, c);
    hide Roles;
    EndUndeferredRest(s, c);
    forall q: Id | q < |s.g.info| ensures RingOk(EndUndeferred(s, c), q) {
      assert RingOk(s, q);
      EndUndeferredRing(s, c, q);
    }
  }

  lemma EndUndeferredRest(s: State, c: Id)
    requires Shape(s) && c < |s.g.info| && !s.g.info[c].deferred && s.g.info[c].parent < |s.g.info| && s.nthreads <= c
    requires Roles(s) && QueueOk(s) && CountsRight(s)
    ensures var r := EndUndeferred(s, c); Shape(r) && Roles(r) && QueueOk(r) && CountsRight(r)
  {
    var r := EndUndeferred(s, c);
    assert forall t: Id :: t < |s.g.info| ==> (Active(r.g, t) <==> Active(s.g, t));
    assert ActiveSet(r.g) == ActiveSet(s.g);
  }

  lemma EndUndeferredRing(s: State, c: Id, q: Id)
    requires Shape(s) && c < |s.g.info| && !s.g.info[c].deferred && q < |s.g.info| && RingOk(s, q) && s.g.info[c].parent < |s.g.info|
    ensures Shape(EndUndeferred(s, c)) && RingOk(EndUndeferred(s, c), q)
  {
    var r := EndUndeferred(s, c);
    RestrictCong(s.g, r.g, s.queue, q);
  }

  // Starting a task: it moves from the waiting part of its ring to the tied part.

  /** The two tasks that gomp_task_run_pre is called on: the queue's head and a parent's newest waiting child. */
  ghost predicate MayStart(s: State, c: Id)
    requires Shape(s)
  {
    && c in s.queue && c < |s.g.info| && s.g.info[c].parent < c
    && (c == s.queue[0] || (s.children[s.g.info[c].parent] != [] && s.children[s.g.info[c].parent][0] == c))
  }

  /** The ring as gomp_task_run_pre leaves it. */
  function Turned(ring: seq<Id>, c: Id): seq<Id> {
    if ring != [] && ring[0] == c then ring[1..] + [c] else ring
  }

  lemma ReverseEnds<T>(w: seq<T>)
    requires w != []
    ensures Reverse(w[1..]) == Reverse(w)[..|w| - 1]
    ensures Reverse(w[..|w| - 1]) == Reverse(w)[1..]
    ensures Reverse(w)[0] == w[|w| - 1] && Reverse(w)[|w| - 1] == w[0]
  {
  }

  lemma MinusEnds<T(!new)>(w: seq<T>)
    requires w != [] && NoRepeats(w)
    ensures Minus(w, w[0]) == w[1..] && Minus(w, w[|w| - 1]) == w[..|w| - 1]
  {
    MinusAt(w, 0);
    MinusAt(w, |w| - 1);
    assert w[..0] + w[1..] == w[1..] && w[..|w| - 1] + w[|w|..] == w[..|w| - 1];
  }

  /** The newest waiting child, at the head, goes to the end of the ring. */
  lemma TurnedNewest(kind: seq<Kind>, ring: seq<Id>, w: seq<Id>, c: Id)
    requires RingShape(kind, ring, w) && NoRepeats(w) && w != [] && c < |kind| && ring[0] == c
    ensures RingShape(kind[c := Tied], ring[1..] + [c], Minus(w, c))
  {
    var n := |w|;
    ReverseEnds(w);
    assert ring[0] == ring[..n][0] == w[n - 1];
    MinusEnds(w);
    hide Minus, Reverse;
    assert (ring[1..] + [c])[..n - 1] == ring[..n][1..];
  }

  /** The oldest waiting child stays where it is: it is next to the tied ones. */
  lemma TurnedOldest(kind: seq<Kind>, ring: seq<Id>, w: seq<Id>, c: Id)
    requires RingShape(kind, ring, w) && NoRepeats(w) && w != [] && c < |kind| && w[0] == c
    ensures RingShape(kind[c := Tied], ring, Minus(w, c))
  {
    var n := |w|;
    ReverseEnds(w);
    MinusEnds(w);
    hide Minus, Reverse;
    assert ring[n - 1] == ring[..n][n - 1] == c;
    assert ring[..n - 1] == ring[..n][..n - 1];
  }

  lemma TurnedShape(kind: seq<Kind>, ring: seq<Id>, w: seq<Id>, c: Id)
    requires RingShape(kind, ring, w) && NoRepeats(w) && w != [] && c < |kind|
    requires c == w[0] || ring[0] == c
    ensures RingShape(kind[c := Tied], Turned(ring, c), Minus(w, c))
  {
    if ring[0] == c {
      TurnedNewest(kind, ring, w, c);
    } else {
      TurnedOldest(kind, ring, w, c);
    }
  }

  lemma TurnedMembers(g: Graph, p: Id, ring: seq<Id>, c: Id)
    requires Shaped(g) && RingMembers(g, p, ring)
    ensures RingMembers(g, p, Turned(ring, c))
  {
    if ring != [] && ring[0] == c {
      assert ring == [c] + ring[1..];
    }
  }

  lemma TiedKeepsShape(kind: seq<Kind>, ring: seq<Id>, w: seq<Id>, c: Id)
    requires RingShape(kind, ring, w) && c < |kind|
    ensures RingShape(kind[c := Tied], ring, w)
  {
  }

  lemma RunPreRing(s: State, c: Id, q: Id)
    requires Shape(s) && QueueOk(s) && MayStart(s, c) && q < |s.g.info| && RingOk(s, q)
    requires s.kind[c] == Waiting && Pending(s.g, c)
    ensures Shape(RunPre(s, c)) && RingOk(RunPre(s, c), q)
  {
    var w := Restrict(s.g, s.queue, q);
    RestrictMinus(s.g, s.queue, c, q);
    RestrictNoRepeats(s.g, s.queue, q);
    if q == s.g.info[c].parent {
      assert Child(s.g, q, c) && c in w;
      if c == s.queue[0] { assert w[0] == c; }
      TurnedShape(s.kind, s.children[q], w, c);
      TurnedMembers(s.g, q, s.children[q], c);
    } else {
      TiedKeepsShape(s.kind, s.children[q], w, c);
    }
  }

  lemma RunPreData(s: State, c: Id)
    requires DataInv(s) && MayStart(s, c)
    ensures DataInv(RunPre(s, c))
  {
    hide Inv, RingOk, CountsRight;
    assert s.kind[c] == Waiting && Pending(s.g, c);
    MinusNoRepeats(s.queue, c);
    var r := RunPre(s, c);
    hide MayStart;
    RunPreCounts(s, c);
    forall q: Id | q < |s.g.info| ensures RingOk(r, q) {
      assert RingOk(s, q);
      RunPreRing(s, c, q);
    }
  }

  lemma RunPreCounts(s: State, c: Id)
    requires Shape(s) && QueueOk(s) && CountsRight(s) && c in s.queue && c < |s.g.info| && s.g.info[c].parent < |s.g.info|
    ensures Shape(RunPre(s, c)) && CountsRight(RunPre(s, c))
  {
    var k :| 0 <= k < |s.queue| && s.queue[k] == c;
    MinusAt(s.queue, k);
  }

  // Ending a deferred task.

  lemma FreedNoRepeats(dependees: seq<int>, vs: seq<Id>)
    requires NoRepeats(vs)
    ensures NoRepeats(Freed(dependees, vs))
  {
    if vs != [] {
      FreedNoRepeats(dependees, vs[1..]);
      var r := Freed(dependees, vs[1..]);
      forall j | 0 <= j < |r| ensures vs[0] != r[j] {
        assert r[j] in r;
        assert r[j] in vs[1..];
      }
    }
  }

  /** The tasks that the end of c sets free. */
  function Ready(g: Graph, c: Id): seq<Id>
    requires Shaped(g) && c < |g.info|
  {
    Freed(g.dependees, g.dependers[c])
  }

  lemma ReadyFacts(g: Graph, c: Id)
    requires Shaped(g) && EdgesOk(g) && CountsOk(g) && Pending(g, c)
    ensures NoRepeats(Ready(g, c)) && c !in Ready(g, c)
    ensures forall t: Id :: t in Ready(g, c) ==> Siblings(g, c, t) && Child(g, g.info[c].parent, t) && !Active(g, t)
    ensures forall t: Id :: t < |g.info| ==> (Active(Retire(g, c), t) <==> (Active(g, t) && t != c) || t in Ready(g, c))
  {
    forall t: Id | t < |g.info| && Active(g, t) ensures !Edge(g, c, t) {
      NoPreds(g, t);
    }
    FreedNoRepeats(g.dependees, g.dependers[c]);
    forall t: Id | t in g.dependers[c] ensures Siblings(g, c, t) && t > c {
      assert Edge(g, c, t);
    }
  }

  lemma FinishParts(s: State, c: Id, signal: bool)
    requires Shape(s) && c < |s.g.info| && s.g.info[c].parent < c
    ensures var r := Finish(s, c, signal); var p := s.g.info[c].parent; var ready := Ready(s.g, c);
            && Shape(r) && r.g == Retire(s.g, c) && r.kind == s.kind && r.phase == s.phase && r.nthreads == s.nthreads
            && r.children == s.children[p := Minus(Reverse(ready) + s.children[p], c)] && r.queue == s.queue + ready
            && r.taskCount == s.taskCount + |ready| - 1 && r.queuedCount == s.queuedCount + |ready|
            && r.arrived == s.arrived && r.waitingForTasks == s.waitingForTasks && r.epoch == s.epoch
            && (forall q: Id :: q < |s.sem| && q != p ==> r.sem[q] == s.sem[q] && (q in r.inTaskwait <==> q in s.inTaskwait))
            && (if p in s.inTaskwait && (ready != [] || (signal && r.children[p] == []))
                then r.sem[p] == s.sem[p] + 1 && p !in r.inTaskwait
                else r.sem[p] == s.sem[p] && (p in r.inTaskwait <==> p in s.inTaskwait))
  {
    hide Ready, Retire, Minus, Reverse, HandleDepend;
    HandleParts(s, c);
  }

  lemma HandleParts(s: State, c: Id)
    requires Shape(s) && c < |s.g.info| && s.g.info[c].parent < c
    ensures var p, ready := s.g.info[c].parent, Ready(s.g, c);
            var s1 := s.(g := Retire(s.g, c), children := s.children[p := Reverse(ready) + s.children[p]], queue := s.queue + ready,
                         taskCount := s.taskCount + |ready|, queuedCount := s.queuedCount + |ready|);
            Shape(s1) && s1.g.info == s.g.info && HandleDepend(s, c) == if ready != [] then Signal(s1, p) else s1
  {
    hide Freed, RetiredChains, Reverse;
  }

  /** Newly freed tasks enter the waiting part, task c leaves the tied part. */
  lemma FinishShape(kind: seq<Kind>, ring: seq<Id>, w: seq<Id>, ready: seq<Id>, c: Id)
    requires RingShape(kind, ring, w) && c !in w && c !in ready
    ensures RingShape(kind, Minus(Reverse(ready) + ring, c), w + ready)
  {
    var n := |w|;
    assert ring == Reverse(w) + ring[n..];
    ReverseAppend(w, ready);
    assert Reverse(ready) + ring == Reverse(w + ready) + ring[n..];
    MinusAppend(Reverse(ready), Reverse(w), c);
    MinusAppend(Reverse(w + ready), ring[n..], c);
    var tail := Minus(ring[n..], c);
    forall j | 0 <= j < |tail| ensures tail[j] < |kind| && kind[tail[j]] == Tied {
      assert tail[j] in tail;
      assert tail[j] in ring[n..];
    }
  }

  /** What ReadyFacts says, for the proofs that need nothing else of the graph. */
  ghost predicate Frees(g: Graph, h: Graph, c: Id, ready: seq<Id>)
    requires Shaped(g) && Shaped(h) && c < |g.info|
  {
    && h.info == g.info && NoRepeats(ready) && c !in ready
    && (forall t: Id :: t in ready ==> t < |g.info| && Child(g, g.info[c].parent, t) && !Active(g, t))
    && (forall t: Id :: t < |g.info| ==> (Active(h, t) <==> (Active(g, t) && t != c) || t in ready))
  }

  lemma FinishMembers(g: Graph, h: Graph, p: Id, ring: seq<Id>, ready: seq<Id>, c: Id)
    requires Shaped(g) && Shaped(h) && c < |g.info| && Frees(g, h, c, ready) && g.info[c].parent == p < c
    requires RingMembers(g, p, ring)
    ensures RingMembers(h, p, Minus(Reverse(ready) + ring, c))
  {
    var both := Reverse(ready) + ring;
    forall t: Id ensures t in Reverse(ready) <==> t in ready {
      if t in ready {
        var k :| 0 <= k < |ready| && ready[k] == t;
        assert Reverse(ready)[|ready| - 1 - k] == t;
      }
    }
    assert NoRepeats(both) by {
      forall i, j | 0 <= i < j < |both| ensures both[i] != both[j] {
        if i < |ready| <= j {
          assert both[i] in Reverse(ready);
          assert both[j] in ring;
        }
      }
    }
    MinusNoRepeats(both, c);
  }

  lemma FinishRing(s: State, c: Id, signal: bool, q: Id)
    requires Shape(s) && c < |s.g.info| && s.g.info[c].parent < c && q < |s.g.info|
    requires Frees(s.g, Retire(s.g, c), c, Ready(s.g, c)) && RingOk(s, q) && s.kind[c] == Tied
    requires forall k :: 0 <= k < |s.queue| ==> s.queue[k] != c
    ensures Shape(Finish(s, c, signal)) && RingOk(Finish(s, c, signal), q)
  {
    var p := s.g.info[c].parent;
    var ready := Ready(s.g, c);
    var h := Retire(s.g, c);
    var w := Restrict(s.g, s.queue, q);
    FinishParts(s, c, signal);
    hide Finish, HandleDepend, RemoveParent;
    RestrictAppend(h, s.queue, ready, q);
    RestrictCong(s.g, h, s.queue, q);
    if q == p {
      assert forall k :: 0 <= k < |ready| ==> ready[k] in ready;
      RestrictAll(h, ready, p);
      FinishShape(s.kind, s.children[p], w, ready, c);
      FinishMembers(s.g, h, p, s.children[p], ready, c);
    } else {
      RestrictNone(h, ready, q);
      FinishOther(s.g, h, q, s.children[q], ready, c);
      assert w + [] == w;
    }
  }

  lemma FinishOther(g: Graph, h: Graph, q: Id, ring: seq<Id>, ready: seq<Id>, c: Id)
    requires Shaped(g) && Shaped(h) && c < |g.info| && Frees(g, h, c, ready) && g.info[c].parent != q
    requires RingMembers(g, q, ring)
    ensures RingMembers(h, q, ring)
  {
  }

  lemma RestrictAll(g: Graph, queue: seq<Id>, p: Id)
    requires forall k :: 0 <= k < |queue| ==> Child(g, p, queue[k])
    ensures Restrict(g, queue, p) == queue
  {
  }

  lemma FinishQueue(s: State, c: Id, signal: bool)
    requires Shape(s) && c < |s.g.info| && s.g.info[c].parent < c
    requires Frees(s.g, Retire(s.g, c), c, Ready(s.g, c)) && QueueOk(s) && Roles(s) && s.kind[c] == Tied
    requires forall t: Id :: t in Ready(s.g, c) ==> Pending(s.g, t)
    ensures Shape(Finish(s, c, signal)) && QueueOk(Finish(s, c, signal))
  {
    var ready := Ready(s.g, c);
    var h := Retire(s.g, c);
    FinishParts(s, c, signal);
    hide Finish, HandleDepend, RemoveParent;
    var q := s.queue + ready;
    assert NoRepeats(q) by {
      forall i, j | 0 <= i < j < |q| ensures q[i] != q[j] {
        if i < |s.queue| <= j {
          assert q[i] in s.queue;
          assert q[j] in ready;
        }
      }
    }
  }

  lemma FinishCounts(s: State, c: Id, signal: bool)
    requires Shape(s) && c < |s.g.info| && s.g.info[c].parent < c
    requires Frees(s.g, Retire(s.g, c), c, Ready(s.g, c)) && CountsRight(s) && Active(s.g, c)
    ensures Shape(Finish(s, c, signal)) && CountsRight(Finish(s, c, signal))
  {
    hide Finish, Frees, Ready, Retire, ActiveSet;
    FinishParts(s, c, signal);
    FreedCount(s.g, Retire(s.g, c), c, Ready(s.g, c));
  }

  /** One active task less, and those that it frees more. */
  lemma FreedCount(g: Graph, h: Graph, c: Id, ready: seq<Id>)
    requires Shaped(g) && Shaped(h) && c < |g.info| && Frees(g, h, c, ready) && Active(g, c)
    ensures |ActiveSet(h)| == |ActiveSet(g)| - 1 + |ready|
  {
    hide Active, NoRepeats;
    DistinctCount(ready);
    Exchanged(ActiveSet(g), c, (set t | t in ready), ActiveSet(h));
  }

  lemma Exchanged(a: set<Id>, c: Id, news: set<Id>, b: set<Id>)
    requires c in a && a !! news && forall t: Id :: t in b <==> (t in a && t != c) || t in news
    ensures |b| == |a| - 1 + |news|
  {
    assert b == (a - {c}) + news;
  }

  lemma FinishRoles(s: State, c: Id, signal: bool)
    requires Shape(s) && c < |s.g.info| && s.g.info[c].parent < c
    requires Roles(s) && CountsOk(s.g)
    ensures Shape(Finish(s, c, signal)) && Roles(Finish(s, c, signal))
  {
    FinishParts(s, c, signal);
    hide Finish, HandleDepend, RemoveParent;
    var h := Retire(s.g, c);
    forall t: Id | t < |s.g.info| && s.kind[t] == Tied ensures h.dependees[t] == 0 {
      NoPreds(s.g, t);
      assert !Edge(s.g, c, t);
    }
  }

  /** Task c may end: it runs, deferred, and its children have ended. */
  ghost predicate MayFinish(s: State, c: Id)
    requires Shape(s)
  {
    Pending(s.g, c) && s.kind[c] == Tied && ChildrenDone(s.g, c)
  }

  lemma FinishData(s: State, c: Id, signal: bool)
    requires DataInv(s) && MayFinish(s, c)
    ensures s.g.info[c].parent < c && DataInv(Finish(s, c, signal))
  {
    hide QueueOk, RingOk, CountsRight, CoverOk, PathsOk, FlagsOk, ChainsOk, Finish;
    ReadyFacts(s.g, c);
    assert s.g.info[c].parent < c && s.g.dependees[c] == 0;
    assert Frees(s.g, Retire(s.g, c), c, Ready(s.g, c));
    RetireInv(s.g, c);
    FinishRoles(s, c, signal);
    hide Inv, Retire, Ready, ParentsLive, EdgesOk;
    FinishQueue(s, c, signal);
    FinishCounts(s, c, signal);
    FinishParts(s, c, signal);
    QueueHasNoTied(s, c);
    forall q: Id | q < |s.g.info| ensures RingOk(Finish(s, c, signal), q) {
      assert RingOk(s, q);
      FinishRing(s, c, signal, q);
    }
  }

  lemma QueueHasNoTied(s: State, c: Id)
    requires Shape(s) && QueueOk(s) && c < |s.g.info| && s.kind[c] == Tied
    ensures forall k :: 0 <= k < |s.queue| ==> s.queue[k] != c
  {
    assert c !in s.queue;
  }

  // ---------------------------------------------------------------------------------------------------
  // The invariant of the threads

  /** No task starts before every earlier conflicting sibling has ended: the meaning of the depend clause. */
  ghost predicate InOrder(g: Graph, kind: seq<Kind>) {
    forall u: Id, v: Id :: u < v < |g.info| && v < |kind| && g.info[u].parent == g.info[v].parent < u && kind[v] != Waiting && Conflict(g, u, v)
      ==> u in g.done
  }

  /** An unfinished undeferred task is the youngest child of a parent that is suspended on it. */
  ghost predicate UndeferredOk(g: Graph, kind: seq<Kind>, phase: seq<Phase>) {
    && |kind| == |phase| == |g.info|
    && (forall c: Id :: c < |kind| && kind[c] == Iffalse && Live(g, c) ==> g.info[c].parent < c && phase[g.info[c].parent] == Undeferred(c))
    && (forall p: Id :: p < |phase| && phase[p].Undeferred? ==>
         var c := phase[p].child;
         Live(g, c) && kind[c] == Iffalse && Child(g, p, c) && forall v: Id :: Child(g, p, v) ==> v <= c)
  }

  predicate Runs(phase: seq<Phase>, r: Id, c: Id) {
    r < |phase| && ((phase[r].Helping? && phase[r].child == c) || (phase[r].BarrierRun? && phase[r].child == c))
  }

  /** Every tied task is run by exactly one thread; a task that helps runs one of its own children. */
  ghost predicate RunnersOk(g: Graph, kind: seq<Kind>, phase: seq<Phase>) {
    && |kind| == |phase| == |g.info|
    && (forall r: Id, c: Id :: Runs(phase, r, c) ==> Pending(g, c) && kind[c] == Tied && (phase[r].Helping? ==> Child(g, r, c)))
    && (forall r: Id, q: Id, c: Id :: Runs(phase, r, c) && Runs(phase, q, c) ==> r == q)
    && (forall c: Id :: Pending(g, c) && kind[c] == Tied ==> exists r: Id :: Runs(phase, r, c))
  }

  ghost predicate PhasesOk(s: State)
    requires Shape(s)
  {
    && s.nthreads >= 1
    && (forall t: Id :: t < |s.phase| && s.phase[t] != Running ==> Live(s.g, t) && s.kind[t] != Waiting)
    && (forall t: Id :: t < |s.phase| && (s.phase[t].AtBarrier? || s.phase[t].BarrierRun?) ==> t < s.nthreads && s.phase[t].epoch <= s.epoch)
  }

  /** A sleeper either is registered for a wake-up or has been sent exactly one. */
  ghost predicate SleepersOk(inTaskwait: set<Id>, sem: seq<int>, phase: seq<Phase>) {
    && |sem| == |phase|
    && (forall t: Id :: t in inTaskwait ==> t < |phase|)
    && (forall t: Id :: t < |phase| ==> if phase[t] == Asleep then sem[t] == (if t in inTaskwait then 0 else 1) else sem[t] == 0 && t !in inTaskwait)
  }

  /** No wake-up is lost: whoever is registered has children, and all of them already run. */
  ghost predicate NothingToDo(inTaskwait: set<Id>, children: seq<seq<Id>>, kind: seq<Kind>) {
    forall p: Id :: p in inTaskwait && p < |children| ==>
      children[p] != [] && forall k :: 0 <= k < |children[p]| ==> children[p][k] < |kind| && kind[children[p][k]] == Tied
  }

  predicate Arrived(phase: seq<Phase>, i: Id, epoch: nat) {
    i < |phase| && (phase[i].AtBarrier? || phase[i].BarrierRun?) && phase[i].epoch == epoch
  }

  ghost function ArrivedSet(phase: seq<Phase>, n: nat, epoch: nat): set<Id> {
    set i: Id | i < n && Arrived(phase, i, epoch)
  }

  /** The barrier waits for tasks exactly when all threads have arrived, and only while there are tasks. */
  ghost predicate BarrierOk(s: State) {
    && s.arrived == |ArrivedSet(s.phase, s.nthreads, s.epoch)|
    && (s.waitingForTasks <==> s.arrived == s.nthreads)
    && (s.waitingForTasks ==> s.taskCount > 0)
  }

  ghost predicate ThreadInv(s: State)
    requires Shape(s)
  {
    && InOrder(s.g, s.kind) && UndeferredOk(s.g, s.kind, s.phase) && RunnersOk(s.g, s.kind, s.phase) && PhasesOk(s)
    && SleepersOk(s.inTaskwait, s.sem, s.phase) && NothingToDo(s.inTaskwait, s.children, s.kind) && BarrierOk(s)
  }

  ghost predicate TeamInv(s: State) {
    DataInv(s) && ThreadInv(s)
  }

  // ---------------------------------------------------------------------------------------------------
  // Conflicts only depend on what was recorded when the tasks were generated

  lemma ConflictSame(g: Graph, h: Graph, u: Id, v: Id)
    requires u < |g.info| && v < |g.info| && g.info <= h.info
    ensures Conflict(g, u, v) <==> Conflict(h, u, v)
  {
    if Conflict(g, u, v) {
      var i: nat, j: nat :| ConflictAt(g, u, i, v, j);
      assert ConflictAt(h, u, i, v, j);
    }
    if Conflict(h, u, v) {
      var i: nat, j: nat :| ConflictAt(h, u, i, v, j);
      assert ConflictAt(g, u, i, v, j);
    }
  }

  /** Growing the graph by one task and starting no old one. */
  lemma InOrderGrow(g: Graph, h: Graph, kind: seq<Kind>, k: Kind)
    requires InOrder(g, kind) && |kind| == |g.info| && g.info < h.info && |h.info| == |g.info| + 1 && g.done <= h.done
    requires k == Waiting || forall u: Id :: u < |g.info| && g.info[u].parent == h.info[|g.info|].parent < u && Conflict(h, u, |g.info|) ==> u in h.done
    ensures InOrder(h, kind + [k])
  {
    forall u: Id, v: Id | u < v < |h.info| && h.info[u].parent == h.info[v].parent < u && (kind + [k])[v] != Waiting && Conflict(h, u, v)
      ensures u in h.done
    {
      if v < |g.info| {
        assert h.info[u] == g.info[u] && h.info[v] == g.info[v];
        ConflictSame(g, h, u, v);
      } else {
        assert h.info[u] == g.info[u];
      }
    }
  }

  lemma InOrderDone(g: Graph, h: Graph, kind: seq<Kind>)
    requires InOrder(g, kind) && h.info == g.info && g.done <= h.done
    ensures InOrder(h, kind)
  {
    forall u: Id, v: Id | u < v < |h.info| && v < |kind| && h.info[u].parent == h.info[v].parent < u && kind[v] != Waiting && Conflict(h, u, v)
      ensures u in h.done
    {
      ConflictSame(g, h, u, v);
    }
  }

  /** A queued task may start: every earlier sibling that conflicts has ended. */
  lemma InOrderStart(s: State, c: Id)
    requires Shape(s) && Inv(s.g) && Roles(s) && UndeferredOk(s.g, s.kind, s.phase) && InOrder(s.g, s.kind)
    requires c < |s.g.info| && Active(s.g, c) && s.kind[c] == Waiting
    ensures InOrder(s.g, s.kind[c := Tied])
  {
    ReadyIff(s.g, c);
    hide Inv;
    forall u: Id | u < c && s.g.info[u].parent == s.g.info[c].parent < u && Conflict(s.g, u, c) ensures u in s.g.done {
      assert s.kind[u] != Implicit && Child(s.g, s.g.info[u].parent, c);
      assert s.kind[u] == Iffalse ==> u in s.g.done;
      assert Pending(s.g, u) ==> MustWaitFor(s.g, u, c);
    }
  }

  /** A task that need not be deferred may start at once. */
  lemma InOrderUndeferred(s: State, p: Id, depend: seq<Addr>, nout: nat, u: Id)
    requires Shape(s) && Inv(s.g) && Roles(s) && UndeferredOk(s.g, s.kind, s.phase) && MayRunUndeferred(s, p, depend, nout)
    requires var h := SpawnUndeferred(s.g, p, depend, nout);
             u < |s.g.info| && s.g.info[u].parent == p < u && Conflict(h, u, |s.g.info|)
    ensures u in s.g.done
  {
    var h := SpawnUndeferred(s.g, p, depend, nout);
    MustDeferIff(s.g, p, depend, nout);
    hide Inv;
    var i: nat, j: nat :| ConflictAt(h, u, i, |s.g.info|, j);
    assert s.kind[u] != Implicit;
    assert s.kind[u] == Iffalse ==> u in s.g.done;
    assert Pending(s.g, u) ==> Clashes(s.g, p, u, i, depend, nout, j);
  }

  // ---------------------------------------------------------------------------------------------------
  // The invariant step by step

  lemma ArrivedSame(phase: seq<Phase>, phase': seq<Phase>, n: nat, epoch: nat)
    requires forall i: Id :: i < n ==> (Arrived(phase, i, epoch) <==> Arrived(phase', i, epoch))
    ensures ArrivedSet(phase, n, epoch) == ArrivedSet(phase', n, epoch)
  {
  }

  /** A record appended by GOMP_task, seen from the threads. */
  lemma GrowThreads(s: State, h: Graph, k: Kind, p: Id)
    requires Shape(s) && Shaped(h) && SameBelow(s.g, h, |s.g.info|) && p < |s.g.info| && h.info[|s.g.info|].parent == p
    requires s.phase[p] == Running && (k == Waiting || (k == Iffalse && !h.info[|s.g.info|].deferred))
    requires RunnersOk(s.g, s.kind, s.phase) && PhasesOk(s) && SleepersOk(s.inTaskwait, s.sem, s.phase)
    requires NothingToDo(s.inTaskwait, s.children, s.kind)
    ensures var r := Extend(s, h, k);
      && Shape(r) && RunnersOk(r.g, r.kind, r.phase) && PhasesOk(r) && SleepersOk(r.inTaskwait, r.sem, r.phase)
      && NothingToDo(r.inTaskwait, r.children, r.kind)
      && ArrivedSet(r.phase, s.nthreads, s.epoch) == ArrivedSet(s.phase, s.nthreads, s.epoch)
  {
    var r := Extend(s, h, k);
    var t := |s.g.info|;
    assert forall c: Id :: c < t ==> r.kind[c] == s.kind[c] && r.phase[c] == s.phase[c] && (Pending(h, c) <==> Pending(s.g, c));
    assert forall q: Id, c: Id :: Runs(r.phase, q, c) <==> Runs(s.phase, q, c);
    assert forall q: Id, c: Id :: c < t ==> (Child(h, q, c) <==> Child(s.g, q, c));
    ArrivedSame(s.phase, r.phase, s.nthreads, s.epoch);
  }

  lemma GrowUndeferredOk(s: State, h: Graph, p: Id)
    requires Shape(s) && Shaped(h) && SameBelow(s.g, h, |s.g.info|) && p < |s.g.info| && h.info[|s.g.info|].parent == p
    requires UndeferredOk(s.g, s.kind, s.phase) && s.phase[p] == Running && |s.g.info| !in h.done
    ensures UndeferredOk(h, s.kind + [Waiting], s.phase + [Running])
    ensures UndeferredOk(h, s.kind + [Iffalse], (s.phase + [Running])[p := Undeferred(|s.g.info|)])
  {
    SameChildren(s.g, h, |s.g.info|, p);
    hide SameBelow, Child;
  }

  lemma SameChildren(g: Graph, h: Graph, t: Id, p: Id)
    requires Shaped(g) && Shaped(h) && SameBelow(g, h, t) && h.info[t].parent == p < t
    ensures forall c: Id :: c < t ==> (Live(h, c) <==> Live(g, c)) && h.info[c] == g.info[c]
    ensures forall q: Id, c: Id :: c < t ==> (Child(h, q, c) <==> Child(g, q, c))
    ensures forall q: Id :: Child(h, q, t) ==> q == p
  {
  }

  lemma CreateThreads(s: State, h: Graph, p: Id)
    requires Shape(s) && Grown(s, h, p) && ThreadInv(s) && CanAct(s, p) && s.g.info < h.info && s.g.done <= h.done
    ensures Shape(Extended(s, h, p)) && ThreadInv(Extended(s, h, p))
  {
    hide SameBelow, UndeferredOk, RunnersOk, InOrder, PhasesOk;
    GrowThreads(s, h, Waiting, p);
    GrowUndeferredOk(s, h, p);
    InOrderGrow(s.g, h, s.kind, Waiting);
    var r := Extended(s, h, p);
    PhasesOnly(r, Extend(s, h, Waiting));
    assert p !in s.inTaskwait;
    hide SleepersOk;
    assert NothingToDo(r.inTaskwait, r.children, r.kind);
  }

  lemma CreateInv(s: State, p: Id, depend: seq<Addr>, nout: nat)
    requires TeamInv(s) && MayCreate(s, p)
    ensures TeamInv(Create(s, p, depend, nout))
  {
    hide Inv, ThreadInv, Spawn, Roles, CountsRight, RingsOk, QueueOk;
    CreateData(s, p, depend, nout);
    SpawnSame(s.g, p, depend, nout);
    CreateThreads(s, Spawn(s.g, p, depend, nout), p);
  }

  /** Phases in which a thread neither runs a task for another one, nor sleeps, nor is at the barrier. */
  predicate Quiet(ph: Phase) {
    ph.Running? || ph.InTaskwait? || ph.Undeferred?
  }

  lemma QuietChange(g: Graph, kind: seq<Kind>, inTaskwait: set<Id>, sem: seq<int>, phase: seq<Phase>, p: Id, ph: Phase, n: nat, epoch: nat)
    requires RunnersOk(g, kind, phase) && SleepersOk(inTaskwait, sem, phase)
    requires p < |phase| && Quiet(phase[p]) && Quiet(ph)
    ensures RunnersOk(g, kind, phase[p := ph]) && SleepersOk(inTaskwait, sem, phase[p := ph])
    ensures ArrivedSet(phase[p := ph], n, epoch) == ArrivedSet(phase, n, epoch)
  {
    var phase' := phase[p := ph];
    assert forall q: Id, c: Id :: Runs(phase', q, c) <==> Runs(phase, q, c);
    ArrivedSame(phase, phase', n, epoch);
  }

  lemma RunUndeferredOrder(s: State, p: Id, depend: seq<Addr>, nout: nat)
    requires Shape(s) && Inv(s.g) && Roles(s) && UndeferredOk(s.g, s.kind, s.phase) && InOrder(s.g, s.kind)
    requires MayRunUndeferred(s, p, depend, nout)
    ensures InOrder(SpawnUndeferred(s.g, p, depend, nout), s.kind + [Iffalse])
    ensures |s.g.info| !in s.g.done
  {
    hide InOrder, MustDefer, UndeferredOk, CoverOk, PathsOk, EdgesOk, ChainsOk, FlagsOk, CountsOk, Conflict;
    var t := |s.g.info|;
    var h := SpawnUndeferred(s.g, p, depend, nout);
    assert t !in s.g.done;
    hide Inv;
    forall u: Id | u < t && s.g.info[u].parent == h.info[t].parent < u && Conflict(h, u, t) ensures u in h.done {
      InOrderUndeferred(s, p, depend, nout, u);
    }
    InOrderGrow(s.g, h, s.kind, Iffalse);
  }

  lemma RunUndeferredThreads(s: State, p: Id, depend: seq<Addr>, nout: nat)
    requires Shape(s) && Inv(s.g) && Roles(s) && ThreadInv(s) && MayRunUndeferred(s, p, depend, nout)
    ensures Shape(RunUndeferred(s, p, depend, nout)) && ThreadInv(RunUndeferred(s, p, depend, nout))
  {
    hide Inv, Roles, InOrder, UndeferredOk, RunnersOk, SleepersOk, NothingToDo, MustDefer;
    var t := |s.g.info|;
    var h := SpawnUndeferred(s.g, p, depend, nout);
    RunUndeferredOrder(s, p, depend, nout);
    assert SameBelow(s.g, h, t);
    hide SameBelow;
    GrowThreads(s, h, Iffalse, p);
    GrowUndeferredOk(s, h, p);
    var s1 := Extend(s, h, Iffalse);
    QuietChange(h, s1.kind, s1.inTaskwait, s1.sem, s1.phase, p, Undeferred(t), s.nthreads, s.epoch);
    var r := RunUndeferred(s, p, depend, nout);
    assert Live(r.g, p) && r.kind[p] != Waiting;
    assert PhasesOk(r);
  }

  lemma RunUndeferredInv(s: State, p: Id, depend: seq<Addr>, nout: nat)
    requires TeamInv(s) && MayRunUndeferred(s, p, depend, nout)
    ensures TeamInv(RunUndeferred(s, p, depend, nout))
  {
    hide Inv, ThreadInv, Roles, CountsRight, RingsOk, QueueOk;
    RunUndeferredData(s, p, depend, nout);
    RunUndeferredThreads(s, p, depend, nout);
  }

  lemma EndUndeferredPhases(s: State, c: Id)
    requires Shape(s) && Roles(s) && UndeferredOk(s.g, s.kind, s.phase) && PhasesOk(s) && MayEndUndeferred(s, c)
    ensures s.g.info[c].parent < c && s.phase[s.g.info[c].parent] == Undeferred(c)
    ensures var r := EndUndeferred(s, c); UndeferredOk(r.g, r.kind, r.phase) && PhasesOk(r)
  {
    EndPhasesOk(s, c) by { hide PhasesOk; }
    hide PhasesOk;
    var r := EndUndeferred(s, c);
    assert forall p: Id, v: Id :: Child(r.g, p, v) <==> Child(s.g, p, v);
    forall p: Id | p < |r.phase| && r.phase[p].Undeferred? ensures r.phase[p].child != c {
      assert s.phase[p] == r.phase[p];
    }
  }

  lemma EndPhasesOk(s: State, c: Id)
    requires Shape(s) && PhasesOk(s) && c < |s.g.info| && s.g.info[c].parent < |s.g.info| && s.phase[c] == Running
    ensures Shape(EndUndeferred(s, c)) && PhasesOk(EndUndeferred(s, c))
  {
  }

  lemma EndUndeferredRunners(g: Graph, h: Graph, kind: seq<Kind>, phase: seq<Phase>, c: Id)
    requires RunnersOk(g, kind, phase) && c < |g.info| && !g.info[c].deferred && h == g.(done := g.done + {c})
    ensures RunnersOk(h, kind, phase)
  {
    assert forall t: Id :: Pending(h, t) <==> Pending(g, t);
  }

  lemma EndUndeferredThreads(s: State, c: Id)
    requires Shape(s) && Roles(s) && ThreadInv(s) && MayEndUndeferred(s, c)
    ensures s.g.info[c].parent < c && Shape(EndUndeferred(s, c)) && ThreadInv(EndUndeferred(s, c))
  {
    EndUndeferredPhases(s, c);
    hide UndeferredOk, PhasesOk, InOrder, SleepersOk, NothingToDo, RunnersOk;
    var p := s.g.info[c].parent;
    var r := EndUndeferred(s, c);
    InOrderDone(s.g, r.g, s.kind);
    QuietChange(s.g, s.kind, s.inTaskwait, s.sem, s.phase, p, Running, s.nthreads, s.epoch);
    EndUndeferredRunners(s.g, r.g, s.kind, r.phase, c);
  }

  lemma EndUndeferredInv(s: State, c: Id)
    requires TeamInv(s) && MayEndUndeferred(s, c)
    ensures s.g.info[c].parent < c < |s.g.info| && TeamInv(EndUndeferred(s, c))
  {
    hide Inv, ThreadInv, CountsRight, RingsOk, QueueOk;
    EndUndeferredData(s, c);
    EndUndeferredThreads(s, c);
  }

  lemma QuietThreads(s: State, p: Id, ph: Phase)
    requires Shape(s) && ThreadInv(s) && p < |s.phase| && (s.phase[p] == Running || s.phase[p] == InTaskwait)
    requires ph == Running || (ph == InTaskwait && Live(s.g, p) && s.kind[p] != Waiting)
    ensures Shape(SetPhase(s, p, ph)) && ThreadInv(SetPhase(s, p, ph))
  {
    var r := SetPhase(s, p, ph);
    QuietChange(s.g, s.kind, s.inTaskwait, s.sem, s.phase, p, ph, s.nthreads, s.epoch);
    hide RunnersOk, SleepersOk, NothingToDo, InOrder;
    assert UndeferredOk(r.g, r.kind, r.phase);
    assert PhasesOk(r);
  }

  /** The data invariant does not look at the threads. */
  lemma DataSame(s: State, r: State)
    requires DataInv(s)
    requires r == s.(phase := r.phase, sem := r.sem, inTaskwait := r.inTaskwait, arrived := r.arrived,
                     waitingForTasks := r.waitingForTasks, epoch := r.epoch)
    requires |r.phase| == |s.phase| && |r.sem| == |s.sem|
    ensures DataInv(r)
  {
    hide Inv, RingMembers, RingShape;
    forall q: Id | q < |s.g.info| ensures RingOk(r, q) {
      assert RingOk(s, q);
    }
  }

  lemma TaskwaitEnterInv(s: State, p: Id)
    requires TeamInv(s) && CanAct(s, p)
    ensures TeamInv(TaskwaitEnter(s, p))
  {
    DataSame(s, TaskwaitEnter(s, p));
    hide Inv, Roles, QueueOk, RingsOk, CountsRight, ThreadInv;
    QuietThreads(s, p, InTaskwait);
  }

  /** c starts in thread r. */
  predicate Starts(s: State, r: Id, ph: Phase, c: Id)
    requires r < |s.phase|
  {
    || (s.phase[r] == InTaskwait && ph == Helping(c) && Child(s.g, r, c))
    || (s.phase[r].AtBarrier? && ph == BarrierRun(s.phase[r].epoch, c))
  }

  lemma StartRunners(s: State, r: Id, ph: Phase, c: Id)
    requires Shape(s) && RunnersOk(s.g, s.kind, s.phase) && SleepersOk(s.inTaskwait, s.sem, s.phase)
    requires r < |s.phase| && Starts(s, r, ph, c) && Pending(s.g, c) && s.kind[c] == Waiting
    ensures RunnersOk(s.g, s.kind[c := Tied], s.phase[r := ph])
    ensures SleepersOk(s.inTaskwait, s.sem, s.phase[r := ph])
    ensures ArrivedSet(s.phase[r := ph], s.nthreads, s.epoch) == ArrivedSet(s.phase, s.nthreads, s.epoch)
  {
    var phase' := s.phase[r := ph];
    assert forall q: Id, d: Id :: Runs(phase', q, d) <==> Runs(s.phase, q, d) || (q == r && d == c);
    ArrivedSame(s.phase, phase', s.nthreads, s.epoch);
  }

  lemma StartNothing(s: State, c: Id)
    requires Shape(s) && NothingToDo(s.inTaskwait, s.children, s.kind)
    requires c < |s.g.info| && s.g.info[c].parent < |s.g.info| && s.kind[c] == Waiting
    requires c in s.children[s.g.info[c].parent]
    ensures NothingToDo(s.inTaskwait, RunPre(s, c).children, s.kind[c := Tied])
  {
    assert s.g.info[c].parent !in s.inTaskwait;
  }

  lemma StartPhases(s: State, r: Id, ph: Phase, c: Id)
    requires Shape(s) && c < |s.g.info| && s.g.info[c].parent < c && s.kind[c] == Waiting && Pending(s.g, c)
    requires UndeferredOk(s.g, s.kind, s.phase) && PhasesOk(s) && r < |s.phase| && Starts(s, r, ph, c)
    ensures var r' := SetPhase(RunPre(s, c), r, ph); Shape(r') && UndeferredOk(r'.g, r'.kind, r'.phase) && PhasesOk(r')
  {
  }

  lemma StartThreads(s: State, r: Id, ph: Phase, c: Id)
    requires Shape(s) && Inv(s.g) && Roles(s) && QueueOk(s) && RingsOk(s) && ThreadInv(s) && MayStart(s, c)
    requires r < |s.phase| && Starts(s, r, ph, c)
    ensures Shape(SetPhase(RunPre(s, c), r, ph)) && ThreadInv(SetPhase(RunPre(s, c), r, ph))
  {
    hide Inv, MayStart, UndeferredOk, PhasesOk, InOrder, RunnersOk, SleepersOk, NothingToDo, Roles;
    StartFacts(s, c);
    assert Active(s.g, c) && s.kind[c] == Waiting;
    assert RingOk(s, s.g.info[c].parent);
    hide RingOk, RingsOk, QueueOk;
    InOrderStart(s, c);
    StartRunners(s, r, ph, c);
    StartNothing(s, c);
    StartPhases(s, r, ph, c);
  }

  lemma StartFacts(s: State, c: Id)
    requires Shape(s) && MayStart(s, c)
    ensures c in s.queue && c < |s.g.info| && s.g.info[c].parent < c && Child(s.g, s.g.info[c].parent, c)
  {
  }

  /** The head of a ring is waiting if and only if some member is. */
  lemma HeadTells(s: State, p: Id)
    requires Shape(s) && QueueOk(s) && p < |s.g.info| && RingOk(s, p) && s.children[p] != []
    ensures s.children[p][0] in s.children[p] && Child(s.g, p, s.children[p][0]) && Active(s.g, s.children[p][0])
    ensures s.kind[s.children[p][0]] == Waiting ==> s.children[p][0] in s.queue
    ensures s.kind[s.children[p][0]] != Waiting ==> forall k :: 0 <= k < |s.children[p]| ==> s.children[p][k] < |s.kind| && s.kind[s.children[p][k]] == Tied
  {
    var ring := s.children[p];
    var w := Restrict(s.g, s.queue, p);
    assert ring[0] in ring;
    if w != [] {
      assert ring[0] == ring[..|w|][0] == w[|w| - 1];
      assert w[|w| - 1] in w;
    } else {
      forall k | 0 <= k < |ring| ensures ring[k] < |s.kind| && s.kind[ring[k]] == Tied {}
    }
  }

  lemma SleepThreads(s: State, p: Id)
    requires Shape(s) && ThreadInv(s) && p < |s.g.info| && s.phase[p] == InTaskwait && s.children[p] != []
    requires forall k :: 0 <= k < |s.children[p]| ==> s.children[p][k] < |s.kind| && s.kind[s.children[p][k]] == Tied
    ensures var r := SetPhase(s.(inTaskwait := s.inTaskwait + {p}), p, Asleep); Shape(r) && ThreadInv(r)
  {
    hide InOrder, RunnersOk, UndeferredOk, SleepersOk, NothingToDo, ArrivedSet;
    SleepRunners(s.g, s.kind, s.phase, p, Asleep, s.nthreads, s.epoch);
    SleepUndeferred(s.g, s.kind, s.phase, p);
    SleepSemaphores(s.inTaskwait, s.sem, s.phase, p);
    SleepNothing(s.inTaskwait, s.children, s.kind, p);
  }

  lemma SleepUndeferred(g: Graph, kind: seq<Kind>, phase: seq<Phase>, p: Id)
    requires UndeferredOk(g, kind, phase) && p < |phase| && phase[p] == InTaskwait
    ensures UndeferredOk(g, kind, phase[p := Asleep])
  {
  }

  lemma SleepSemaphores(inTaskwait: set<Id>, sem: seq<int>, phase: seq<Phase>, p: Id)
    requires SleepersOk(inTaskwait, sem, phase) && p < |phase| && phase[p] == InTaskwait
    ensures SleepersOk(inTaskwait + {p}, sem, phase[p := Asleep])
  {
  }

  lemma SleepNothing(inTaskwait: set<Id>, children: seq<seq<Id>>, kind: seq<Kind>, p: Id)
    requires NothingToDo(inTaskwait, children, kind) && p < |children| && children[p] != []
    requires forall k :: 0 <= k < |children[p]| ==> children[p][k] < |kind| && kind[children[p][k]] == Tied
    ensures NothingToDo(inTaskwait + {p}, children, kind)
  {
  }

  lemma SleepRunners(g: Graph, kind: seq<Kind>, phase: seq<Phase>, p: Id, ph: Phase, n: nat, epoch: nat)
    requires RunnersOk(g, kind, phase) && p < |phase| && (phase[p] == InTaskwait || phase[p] == Asleep) && (ph == InTaskwait || ph == Asleep)
    ensures RunnersOk(g, kind, phase[p := ph]) && ArrivedSet(phase[p := ph], n, epoch) == ArrivedSet(phase, n, epoch)
  {
    var phase' := phase[p := ph];
    assert forall q: Id, c: Id :: Runs(phase', q, c) <==> Runs(phase, q, c);
    ArrivedSame(phase, phase', n, epoch);
  }

  lemma RingHasChildren(s: State, p: Id)
    requires Shape(s) && p < |s.g.info| && RingOk(s, p)
    ensures forall c: Id :: c in s.children[p] ==> c < |s.g.info| && s.g.info[c].parent == p && Child(s.g, p, c)
  {
  }

  lemma TaskwaitPassInv(s: State, p: Id)
    requires TeamInv(s) && p < |s.g.info| && s.phase[p] == InTaskwait
    ensures forall c: Id :: c in s.children[p] ==> c < |s.g.info| && s.g.info[c].parent == p
    ensures TeamInv(TaskwaitPass(s, p))
  {
    hide Inv, Roles, QueueOk, CountsRight, ThreadInv;
    assert RingOk(s, p);
    hide RingOk;
    RingHasChildren(s, p);
    if s.children[p] == [] {
      QuietThreads(s, p, Running);
      DataSame(s, TaskwaitPass(s, p));
    } else {
      HeadTells(s, p);
      var c := s.children[p][0];
      if s.kind[c] == Waiting {
        RunPreData(s, c);
        DataSame(RunPre(s, c), TaskwaitPass(s, p));
        StartThreads(s, p, Helping(c), c);
      } else {
        SleepThreads(s, p);
        DataSame(s, TaskwaitPass(s, p));
      }
    }
  }

  lemma WakeInv(s: State, p: Id)
    requires TeamInv(s) && p < |s.g.info| && s.phase[p] == Asleep && s.sem[p] > 0
    ensures TeamInv(Wake(s, p))
  {
    DataSame(s, Wake(s, p));
    hide Inv, Roles, QueueOk, RingsOk, CountsRight;
    WakeThreads(s, p);
  }

  lemma WakeThreads(s: State, p: Id)
    requires Shape(s) && ThreadInv(s) && p < |s.g.info| && s.phase[p] == Asleep && s.sem[p] > 0
    ensures Shape(Wake(s, p)) && ThreadInv(Wake(s, p))
  {
    SleepRunners(s.g, s.kind, s.phase, p, InTaskwait, s.nthreads, s.epoch);
    hide RunnersOk, InOrder;
  }

  // Ending a task: the thread view.

  /** Thread r is done with task c and goes on with ph. */
  predicate Ends(s: State, r: Id, ph: Phase, c: Id)
    requires r < |s.phase|
  {
    || (s.phase[r] == Helping(c) && ph == InTaskwait)
    || (s.phase[r].BarrierRun? && s.phase[r].child == c && ph == AtBarrier(s.phase[r].epoch))
  }

  lemma EndRunners(s: State, h: Graph, r: Id, ph: Phase, c: Id)
    requires Shape(s) && RunnersOk(s.g, s.kind, s.phase) && r < |s.phase| && Ends(s, r, ph, c) && c < |s.g.info|
    requires h.info == s.g.info && h.done == s.g.done + {c}
    ensures RunnersOk(h, s.kind, s.phase[r := ph])
    ensures ArrivedSet(s.phase[r := ph], s.nthreads, s.epoch) == ArrivedSet(s.phase, s.nthreads, s.epoch)
  {
    var phase' := s.phase[r := ph];
    assert Runs(s.phase, r, c);
    assert forall q: Id, d: Id :: Runs(phase', q, d) <==> Runs(s.phase, q, d) && q != r;
    assert forall q: Id, d: Id :: Runs(phase', q, d) ==> d != c;
    assert forall t: Id :: Pending(h, t) <==> Pending(s.g, t) && t != c;
    ArrivedSame(s.phase, phase', s.nthreads, s.epoch);
  }

  lemma EndPhases(s: State, h: Graph, r: Id, ph: Phase, c: Id)
    requires Shape(s) && UndeferredOk(s.g, s.kind, s.phase) && PhasesOk(s) && r < |s.phase| && Ends(s, r, ph, c) && c < |s.g.info|
    requires s.kind[c] == Tied && s.phase[c] == Running && Shaped(h) && h.info == s.g.info && h.done == s.g.done + {c}
    ensures UndeferredOk(h, s.kind, s.phase[r := ph]) && PhasesOk(s.(g := h, phase := s.phase[r := ph]))
  {
    EndUndeferredOk(s, h, r, ph, c) by { hide PhasesOk; }
    hide UndeferredOk;
  }

  lemma EndUndeferredOk(s: State, h: Graph, r: Id, ph: Phase, c: Id)
    requires Shape(s) && UndeferredOk(s.g, s.kind, s.phase) && r < |s.phase| && Ends(s, r, ph, c) && c < |s.g.info|
    requires s.kind[c] == Tied && Shaped(h) && h.info == s.g.info && h.done == s.g.done + {c}
    ensures UndeferredOk(h, s.kind, s.phase[r := ph])
  {
    assert forall p: Id, v: Id :: Child(h, p, v) <==> Child(s.g, p, v);
  }

  /** The wake-ups that the end of c sends are the right ones. */
  lemma EndSleepers(s: State, c: Id, signal: bool, r: Id, ph: Phase)
    requires Shape(s) && c < |s.g.info| && s.g.info[c].parent < c
    requires SleepersOk(s.inTaskwait, s.sem, s.phase) && r < |s.phase| && Ends(s, r, ph, c)
    ensures Shape(Finish(s, c, signal))
    ensures SleepersOk(Finish(s, c, signal).inTaskwait, Finish(s, c, signal).sem, s.phase[r := ph])
  {
    hide Finish, Retire, Ready, Minus, Reverse;
    FinishParts(s, c, signal);
    FinishTaskwait(s, c, signal);
  }

  lemma EndNothing(s: State, c: Id, signal: bool, r: Id, ph: Phase)
    requires Shape(s) && c < |s.g.info| && s.g.info[c].parent < c
    requires NothingToDo(s.inTaskwait, s.children, s.kind)
    requires r < |s.phase| && r !in s.inTaskwait && (signal || s.g.info[c].parent == r)
    ensures Shape(Finish(s, c, signal))
    ensures NothingToDo(Finish(s, c, signal).inTaskwait, Finish(s, c, signal).children, Finish(s, c, signal).kind)
  {
    FinishParts(s, c, signal);
    FinishTaskwait(s, c, signal);
    var f := Finish(s, c, signal);
    var p := s.g.info[c].parent;
    var ring := s.children[p];
    var ready := Ready(s.g, c);
    hide Finish, HandleDepend, RemoveParent, Ready, Reverse;
    if p in f.inTaskwait {
      assert ready == [] && f.children[p] != [];
      assert Reverse(ready) + ring == ring;
      forall k | 0 <= k < |f.children[p]| ensures f.children[p][k] < |f.kind| && f.kind[f.children[p][k]] == Tied {
        assert f.children[p][k] in f.children[p];
        assert f.children[p][k] in ring;
      }
    }
  }

  lemma FinishTaskwait(s: State, c: Id, signal: bool)
    requires Shape(s) && c < |s.g.info| && s.g.info[c].parent < c
    ensures forall q: Id :: q in Finish(s, c, signal).inTaskwait ==> q in s.inTaskwait
  {
  }

  /** Everything but the barrier's own clause after the end of c. */
  lemma EndThreads(s: State, c: Id, signal: bool, r: Id, ph: Phase)
    requires Shape(s) && c < |s.g.info| && s.g.info[c].parent < c && ThreadInv(s)
    requires s.kind[c] == Tied && s.phase[c] == Running
    requires r < |s.phase| && Ends(s, r, ph, c) && (signal || s.g.info[c].parent == r)
    ensures var f := SetPhase(Finish(s, c, signal), r, ph);
            && Shape(f) && InOrder(f.g, f.kind) && UndeferredOk(f.g, f.kind, f.phase) && RunnersOk(f.g, f.kind, f.phase) && PhasesOk(f)
            && SleepersOk(f.inTaskwait, f.sem, f.phase) && NothingToDo(f.inTaskwait, f.children, f.kind)
            && f.arrived == s.arrived == |ArrivedSet(f.phase, f.nthreads, f.epoch)|
            && f.waitingForTasks == s.waitingForTasks && f.nthreads == s.nthreads && f.epoch == s.epoch
            && f.phase == s.phase[r := ph] && f.g == Retire(s.g, c)
  {
    hide InOrder, UndeferredOk, RunnersOk, PhasesOk, NothingToDo;
    assert r !in s.inTaskwait;
    hide SleepersOk;
    FinishParts(s, c, signal);
    hide Finish;
    var h := Retire(s.g, c);
    InOrderDone(s.g, h, s.kind);
    EndRunners(s, h, r, ph, c);
    EndPhases(s, h, r, ph, c);
    EndSleepers(s, c, signal, r, ph);
    EndNothing(s, c, signal, r, ph);
    PhasesOnly(SetPhase(Finish(s, c, signal), r, ph), s.(g := h, phase := s.phase[r := ph]));
  }

  lemma PhasesOnly(f: State, s: State)
    requires Shape(f) && Shape(s) && PhasesOk(s)
    requires f.g == s.g && f.kind == s.kind && f.phase == s.phase && f.nthreads == s.nthreads && f.epoch == s.epoch
    ensures PhasesOk(f)
  {
  }

  /** When all threads are at the barrier, whoever is still in user code sits inside a deferred task. */
  lemma {:induction false} HostActive(s: State, t: Id) returns (r: Id)
    requires Shape(s) && Roles(s) && UndeferredOk(s.g, s.kind, s.phase) && PhasesOk(s)
    requires t < |s.g.info| && Live(s.g, t) && s.kind[t] != Waiting && !s.phase[t].AtBarrier? && !s.phase[t].BarrierRun?
    requires forall i: Id :: i < s.nthreads ==> s.phase[i].AtBarrier? || s.phase[i].BarrierRun?
    ensures r <= t && Active(s.g, r) && s.kind[r] == Tied
    decreases t
  {
    if s.kind[t] == Tied {
      r := t;
    } else {
      assert s.kind[t] == Iffalse;
      r := HostActive(s, s.g.info[t].parent);
    }
  }

  lemma FullBarrier(phase: seq<Phase>, n: nat, epoch: nat)
    requires |ArrivedSet(phase, n, epoch)| == n
    ensures forall i: Id :: i < n ==> Arrived(phase, i, epoch)
  {
    SubsetFull(ArrivedSet(phase, n, epoch), Below(n));
    forall i: Id | i < n ensures Arrived(phase, i, epoch) {
      assert i in Below(n);
    }
  }

  /** The end of a child inside GOMP_taskwait never leaves the barrier without tasks: its parent is one. */
  lemma HelperKeepsTasks(s: State, p: Id, c: Id)
    requires Shape(s) && Inv(s.g) && Roles(s) && CountsRight(s) && ThreadInv(s)
    requires p < |s.g.info| && s.phase[p] == Helping(c) && c < |s.g.info| && Child(s.g, p, c) && Active(s.g, c) && s.waitingForTasks
    ensures s.taskCount >= 2
  {
    hide Inv;
    FullBarrier(s.phase, s.nthreads, s.epoch);
    forall i: Id | i < s.nthreads ensures s.phase[i].AtBarrier? || s.phase[i].BarrierRun? {
      assert Arrived(s.phase, i, s.epoch);
    }
    var r := HostActive(s, p);
    assert {r, c} <= ActiveSet(s.g);
    SubsetSize({r, c}, ActiveSet(s.g));
  }

  ghost predicate MayEndTaskwait(s: State, p: Id)
    requires Shape(s)
  {
    p < |s.g.info| && s.phase[p].Helping? && CanAct(s, s.phase[p].child) && ChildrenDone(s.g, s.phase[p].child)
  }

  lemma EndFacts(s: State, r: Id, c: Id)
    requires DataInv(s) && ThreadInv(s) && Runs(s.phase, r, c) && CanAct(s, c) && ChildrenDone(s.g, c)
    ensures MayFinish(s, c) && c < |s.g.info| && s.g.info[c].parent < c && Active(s.g, c)
    ensures s.phase[r].Helping? ==> Child(s.g, r, c) && s.g.info[c].parent == r
  {
  }

  lemma TaskwaitEndInv(s: State, p: Id)
    requires TeamInv(s) && MayEndTaskwait(s, p)
    ensures s.phase[p].child < |s.g.info| && s.g.info[s.phase[p].child].parent < s.phase[p].child
    ensures TeamInv(TaskwaitEnd(s, p))
  {
    hide Inv, QueueOk, RingsOk, Finish, ThreadInv, Roles, CountsRight, ArrivedSet, MayFinish;
    var c := s.phase[p].child;
    EndFacts(s, p, c);
    FinishData(s, c, false);
    FinishCount(s, c, false);
    if s.waitingForTasks { HelperKeepsTasks(s, p, c); }
    EndThreads(s, c, false, p, InTaskwait);
    var f := TaskwaitEnd(s, p);
    DataSame(Finish(s, c, false), f);
    hide DataInv;
    TeamFromParts(s, f);
  }

  lemma FinishCount(s: State, c: Id, signal: bool)
    requires Shape(s) && c < |s.g.info| && s.g.info[c].parent < c
    ensures var r := Finish(s, c, signal); r.taskCount >= s.taskCount - 1 && |r.phase| == |s.phase| && |r.sem| == |s.sem|
  {
    hide Finish;
    FinishParts(s, c, signal);
  }

  lemma TeamFromParts(s: State, f: State)
    requires DataInv(f) && Shape(s) && ThreadInv(s)
    requires InOrder(f.g, f.kind) && UndeferredOk(f.g, f.kind, f.phase) && RunnersOk(f.g, f.kind, f.phase) && PhasesOk(f)
    requires SleepersOk(f.inTaskwait, f.sem, f.phase) && NothingToDo(f.inTaskwait, f.children, f.kind)
    requires f.arrived == s.arrived == |ArrivedSet(f.phase, f.nthreads, f.epoch)|
    requires f.waitingForTasks == s.waitingForTasks && f.nthreads == s.nthreads && (s.waitingForTasks ==> f.taskCount > 0)
    ensures TeamInv(f)
  {
  }

  ghost predicate MayArrive(s: State, i: Id)
    requires Shape(s)
  {
    CanAct(s, i) && s.kind[i] == Implicit
  }

  lemma ArriveThreads(s: State, i: Id)
    requires Shape(s) && Roles(s) && ThreadInv(s) && MayArrive(s, i) && s.taskCount >= 0
    ensures Shape(BarrierArrive(s, i)) && ThreadInv(BarrierArrive(s, i))
  {
    hide InOrder, UndeferredOk, RunnersOk, PhasesOk, SleepersOk, NothingToDo, BarrierOk;
    assert i < s.nthreads;
    hide Roles;
    ArriveRunners(s.g, s.kind, s.phase, i, AtBarrier(s.epoch));
    ArriveSleepers(s.inTaskwait, s.sem, s.phase, i, AtBarrier(s.epoch));
    ArrivePhases(s, i);
    ArriveBarrier(s, i);
  }

  lemma ArriveSleepers(inTaskwait: set<Id>, sem: seq<int>, phase: seq<Phase>, i: Id, ph: Phase)
    requires SleepersOk(inTaskwait, sem, phase) && i < |phase| && phase[i] == Running && ph.AtBarrier?
    ensures SleepersOk(inTaskwait, sem, phase[i := ph])
  {
  }

  lemma ArriveBarrier(s: State, i: Id)
    requires Shape(s) && BarrierOk(s) && PhasesOk(s) && i < s.nthreads && s.phase[i] == Running && s.taskCount >= 0
    ensures BarrierOk(BarrierArrive(s, i))
  {
    hide ArrivedSet;
    ArrivedMore(s.phase, s.nthreads, s.epoch, i);
    NoneArrived(s.phase[i := AtBarrier(s.epoch)], s.nthreads, s.epoch + 1);
  }

  lemma ArrivedMore(phase: seq<Phase>, n: nat, epoch: nat, i: Id)
    requires i < n && i < |phase| && phase[i] == Running
    ensures |ArrivedSet(phase[i := AtBarrier(epoch)], n, epoch)| == |ArrivedSet(phase, n, epoch)| + 1 <= n
  {
    var phase' := phase[i := AtBarrier(epoch)];
    assert ArrivedSet(phase', n, epoch) == ArrivedSet(phase, n, epoch) + {i};
    assert ArrivedSet(phase', n, epoch) <= Below(n);
    SubsetSize(ArrivedSet(phase', n, epoch), Below(n));
  }

  lemma ArrivePhases(s: State, i: Id)
    requires Shape(s) && UndeferredOk(s.g, s.kind, s.phase) && PhasesOk(s) && MayArrive(s, i) && i < s.nthreads
    ensures var r := BarrierArrive(s, i); Shape(r) && UndeferredOk(r.g, r.kind, r.phase) && PhasesOk(r)
  {
    ArriveUndeferred(s.g, s.kind, s.phase, i, AtBarrier(s.epoch));
    hide UndeferredOk;
  }

  lemma ArriveUndeferred(g: Graph, kind: seq<Kind>, phase: seq<Phase>, i: Id, ph: Phase)
    requires UndeferredOk(g, kind, phase) && i < |phase| && phase[i] == Running && ph.AtBarrier?
    ensures UndeferredOk(g, kind, phase[i := ph])
  {
  }

  lemma ArriveRunners(g: Graph, kind: seq<Kind>, phase: seq<Phase>, i: Id, ph: Phase)
    requires RunnersOk(g, kind, phase) && i < |phase| && (phase[i] == Running || phase[i].AtBarrier?) && (ph == Running || ph.AtBarrier?)
    ensures RunnersOk(g, kind, phase[i := ph])
  {
    var phase' := phase[i := ph];
    assert forall q: Id, c: Id :: Runs(phase', q, c) <==> Runs(phase, q, c);
  }

  lemma NoneArrived(phase: seq<Phase>, n: nat, epoch: nat)
    requires forall t: Id :: t < |phase| && (phase[t].AtBarrier? || phase[t].BarrierRun?) ==> phase[t].epoch < epoch
    ensures ArrivedSet(phase, n, epoch) == {}
  {
  }

  lemma BarrierArriveInv(s: State, i: Id)
    requires TeamInv(s) && MayArrive(s, i)
    ensures TeamInv(BarrierArrive(s, i))
  {
    DataSame(s, BarrierArrive(s, i));
    hide Inv, QueueOk, RingsOk, ThreadInv;
    ArriveThreads(s, i);
  }

  ghost predicate MayTake(s: State, i: Id)
    requires Shape(s)
  {
    i < |s.g.info| && s.phase[i].AtBarrier? && s.queue != []
  }

  lemma BarrierTakeInv(s: State, i: Id)
    requires TeamInv(s) && MayTake(s, i)
    ensures s.queue[0] < |s.g.info| && s.g.info[s.queue[0]].parent < |s.g.info| && TeamInv(BarrierTake(s, i))
  {
    var c := s.queue[0];
    hide Inv, RingsOk, ThreadInv, CountsRight;
    assert c in s.queue && s.g.info[c].parent < c;
    RunPreData(s, c);
    DataSame(RunPre(s, c), BarrierTake(s, i));
    hide Roles, QueueOk;
    StartThreads(s, i, BarrierRun(s.phase[i].epoch, c), c);
  }

  ghost predicate MayEndBarrier(s: State, i: Id)
    requires Shape(s)
  {
    i < |s.g.info| && s.phase[i].BarrierRun? && CanAct(s, s.phase[i].child) && ChildrenDone(s.g, s.phase[i].child)
  }

  lemma BarrierEndInv(s: State, i: Id)
    requires TeamInv(s) && MayEndBarrier(s, i)
    ensures s.phase[i].child < |s.g.info| && s.g.info[s.phase[i].child].parent < s.phase[i].child
    ensures TeamInv(BarrierEnd(s, i))
  {
    var c := s.phase[i].child;
    var ph := AtBarrier(s.phase[i].epoch);
    hide Inv, QueueOk, RingsOk, Finish, ThreadInv, Roles;
    EndFacts(s, i, c);
    FinishData(s, c, true);
    assert Finish(s, c, true).taskCount >= 0;
    hide CountsRight, ArrivedSet;
    EndThreads(s, c, true, i, ph);
    var f := SetPhase(Finish(s, c, true), i, ph);
    DataSame(Finish(s, c, true), f);
    DataSame(Finish(s, c, true), BarrierEnd(s, i));
    hide DataInv;
    if f.taskCount == 0 && f.waitingForTasks {
      DoneFromParts(f);
    } else {
      TeamFromParts(s, f);
    }
  }

  lemma DoneFromParts(f: State)
    requires Shape(f) && DataInv(BarrierDone(f)) && PhasesOk(f)
    requires InOrder(f.g, f.kind) && UndeferredOk(f.g, f.kind, f.phase) && RunnersOk(f.g, f.kind, f.phase)
    requires SleepersOk(f.inTaskwait, f.sem, f.phase) && NothingToDo(f.inTaskwait, f.children, f.kind)
    ensures TeamInv(BarrierDone(f))
  {
    hide InOrder, UndeferredOk, RunnersOk, SleepersOk, NothingToDo, DataInv;
    NoneArrived(f.phase, f.nthreads, f.epoch + 1);
    assert PhasesOk(BarrierDone(f));
  }

  ghost predicate MayLeave(s: State, i: Id)
    requires Shape(s)
  {
    i < |s.g.info| && s.phase[i].AtBarrier? && s.phase[i].epoch < s.epoch
  }

  /** A thread notices that the barrier has moved on. */
  lemma BarrierLeaveInv(s: State, i: Id)
    requires TeamInv(s) && MayLeave(s, i)
    ensures TeamInv(SetPhase(s, i, Running))
  {
    DataSame(s, SetPhase(s, i, Running));
    hide Inv, QueueOk, RingsOk, Roles, CountsRight;
    LeaveThreads(s, i);
  }

  lemma LeaveThreads(s: State, i: Id)
    requires Shape(s) && ThreadInv(s) && MayLeave(s, i)
    ensures Shape(SetPhase(s, i, Running)) && ThreadInv(SetPhase(s, i, Running))
  {
    var r := SetPhase(s, i, Running);
    ArriveRunners(s.g, s.kind, s.phase, i, Running);
    hide RunnersOk, InOrder, NothingToDo;
    ArrivedSame(s.phase, r.phase, s.nthreads, s.epoch);
    assert UndeferredOk(r.g, r.kind, r.phase);
  }

  // ---------------------------------------------------------------------------------------------------
  // Runs

  datatype Step =
    | CreateTask(p: Id, depend: seq<Addr>, nout: nat)
    | UndeferredTask(p: Id, depend: seq<Addr>, nout: nat)
    | UndeferredEnds(c: Id)
    | EntersTaskwait(p: Id)
    | PassesTaskwait(p: Id)
    | WakesUp(p: Id)
    | HelpedEnds(p: Id)
    | Arrives(i: Id)
    | TakesTask(i: Id)
    | TakenEnds(i: Id)
    | Leaves(i: Id)

  /** When a step can happen. */
  ghost predicate Enabled(s: State, step: Step)
    requires Shape(s)
  {
    match step
    case CreateTask(p, _, _) => MayCreate(s, p)
    case UndeferredTask(p, depend, nout) => MayRunUndeferred(s, p, depend, nout)
    case UndeferredEnds(c) => MayEndUndeferred(s, c)
    case EntersTaskwait(p) => CanAct(s, p)
    case PassesTaskwait(p) => p < |s.phase| && s.phase[p] == InTaskwait
    case WakesUp(p) => p < |s.phase| && s.phase[p] == Asleep && s.sem[p] > 0
    case HelpedEnds(p) => MayEndTaskwait(s, p)
    case Arrives(i) => MayArrive(s, i)
    case TakesTask(i) => MayTake(s, i)
    case TakenEnds(i) => MayEndBarrier(s, i)
    case Leaves(i) => MayLeave(s, i)
  }

  /** The pointers a step follows are good; StepInv shows that this always holds. */
  ghost predicate Safe(s: State, step: Step)
    requires Shape(s) && Enabled(s, step)
  {
    match step
    case UndeferredEnds(c) => s.g.info[c].parent < |s.g.info|
    case PassesTaskwait(p) => forall c: Id :: c in s.children[p] ==> c < |s.g.info| && s.g.info[c].parent == p
    case HelpedEnds(p) => s.g.info[s.phase[p].child].parent < s.phase[p].child
    case TakesTask(i) => s.queue[0] < |s.g.info| && s.g.info[s.queue[0]].parent < |s.g.info|
    case TakenEnds(i) => s.g.info[s.phase[i].child].parent < s.phase[i].child
    case _ => true
  }

  ghost function Apply(s: State, step: Step): State
    requires Shape(s) && Enabled(s, step) && Safe(s, step)
  {
    match step
    case CreateTask(p, depend, nout) => Create(s, p, depend, nout)
    case UndeferredTask(p, depend, nout) => RunUndeferred(s, p, depend, nout)
    case UndeferredEnds(c) => EndUndeferred(s, c)
    case EntersTaskwait(p) => TaskwaitEnter(s, p)
    case PassesTaskwait(p) => TaskwaitPass(s, p)
    case WakesUp(p) => Wake(s, p)
    case HelpedEnds(p) => TaskwaitEnd(s, p)
    case Arrives(i) => BarrierArrive(s, i)
    case TakesTask(i) => BarrierTake(s, i)
    case TakenEnds(i) => BarrierEnd(s, i)
    case Leaves(i) => SetPhase(s, i, Running)
  }

  /** Every step keeps the invariant, whatever the other threads did before. */
  lemma ShapeOf(s: State)
    requires TeamInv(s)
    ensures Shape(s)
  {
  }

  lemma StepInv(s: State, step: Step)
    requires TeamInv(s) && Enabled(s, step)
    ensures Safe(s, step) && TeamInv(Apply(s, step))
  {
    hide DataInv, ThreadInv, TeamInv, Create, RunUndeferred, EndUndeferred, TaskwaitEnter, TaskwaitPass, Wake, TaskwaitEnd,
         BarrierArrive, BarrierTake, BarrierEnd, SetPhase, MayCreate, MayRunUndeferred, CanAct, MayArrive;
    ShapeOf(s);
    match step
    case CreateTask(p, depend, nout) => CreateInv(s, p, depend, nout);
    case UndeferredTask(p, depend, nout) => RunUndeferredInv(s, p, depend, nout);
    case UndeferredEnds(c) => EndUndeferredInv(s, c);
    case EntersTaskwait(p) => TaskwaitEnterInv(s, p);
    case PassesTaskwait(p) => TaskwaitPassInv(s, p);
    case WakesUp(p) => WakeInv(s, p);
    case HelpedEnds(p) => TaskwaitEndInv(s, p);
    case Arrives(i) => BarrierArriveInv(s, i);
    case TakesTask(i) => BarrierTakeInv(s, i);
    case TakenEnds(i) => BarrierEndInv(s, i);
    case Leaves(i) => BarrierLeaveInv(s, i);
  }

  lemma InitGraph(n: nat)
    ensures Inv(Init(n).g) && ActiveSet(Init(n).g) == {}
  {
    var g := Init(n).g;
    assert forall u: Id, v: Id :: !Edge(g, u, v);
    forall v: Id | v < |g.info| ensures g.dependees[v] == |Preds(g, v)| {
      assert forall u: Id :: u in Preds(g, v) ==> Edge(g, u, v);
      assert Preds(g, v) == {};
    }
    assert PathsOk(g) && CoverOk(g) && FlagsOk(g);
  }

  lemma InitInv(n: nat)
    requires n >= 1
    ensures TeamInv(Init(n))
  {
    var s := Init(n);
    InitGraph(n);
    hide Inv;
    forall p: Id | p < n ensures RingOk(s, p) {
      assert forall c: Id :: c < n ==> !Active(s.g, c);
    }
    assert DataInv(s);
    hide DataInv;
    assert forall q: Id, c: Id :: !Runs(s.phase, q, c);
    NoneArrived(s.phase, n, 0);
  }

  /** A run: states[k + 1] follows from states[k] by steps[k]. */
  ghost predicate IsRun(n: nat, states: seq<State>, steps: seq<Step>) {
    && n >= 1 && |states| == |steps| + 1 && states[0] == Init(n)
    && forall k :: 0 <= k < |steps| ==>
         && Shape(states[k]) && Enabled(states[k], steps[k]) && Safe(states[k], steps[k])
         && states[k + 1] == Apply(states[k], steps[k])
  }

  ghost predicate Reachable(s: State) {
    exists n, states, steps :: IsRun(n, states, steps) && s in states
  }

  /** The start of a team is reachable, and so is whatever an enabled step leads to; no enabled step is unsafe. */
  lemma InitReachable(n: nat)
    requires n >= 1
    ensures Reachable(Init(n))
  {
    hide Init;
    assert IsRun(n, [Init(n)], []);
  }

  lemma ReachableSteps(n: nat, s: State, step: Step)
    requires n >= 1
    ensures Reachable(Init(n))
    ensures Reachable(s) ==> Shape(s) && (Enabled(s, step) ==> Safe(s, step) && Reachable(Apply(s, step)))
  {
    hide TeamInv, Enabled, Safe, Apply, Reachable, Init;
    InitReachable(n);
    if Reachable(s) {
      ReachableInv(s);
      ShapeOf(s);
      if Enabled(s, step) {
        StepInv(s, step);
        StepExtends(s, step);
      }
    }
  }

  /** From queue q to queue r nobody overtakes: what is behind in r and was in q already was behind in q. */
  ghost predicate Fifo(q: seq<Id>, r: seq<Id>) {
    forall i: nat, j: nat :: i < j < |r| && r[j] in q ==> Ahead(q, r[i], r[j])
  }

  ghost predicate Ahead(q: seq<Id>, u: Id, v: Id) {
    exists a: nat, b: nat :: a < b < |q| && q[a] == u && q[b] == v
  }

  lemma FifoAppend(q: seq<Id>, w: seq<Id>)
    requires forall y :: y in w ==> y !in q
    ensures Fifo(q, q + w)
  {
    var r := q + w;
    assert forall j :: |q| <= j < |r| ==> r[j] in w;
    forall i: nat, j: nat | i < j < |r| && r[j] in q ensures Ahead(q, r[i], r[j]) {
      assert q[i] == r[i] && q[j] == r[j];
    }
  }

  lemma FifoMinus(q: seq<Id>, x: Id)
    requires NoRepeats(q)
    ensures Fifo(q, Minus(q, x))
  {
    hide Minus;
    if x in q {
      var k: nat :| k < |q| && q[k] == x;
      MinusAt(q, k);
      var r := q[..k] + q[k + 1..];
      forall i: nat, j: nat | i < j < |r| && r[j] in q ensures Ahead(q, r[i], r[j]) {
        assert r[i] == q[if i < k then i else i + 1] && r[j] == q[if j < k then j else j + 1];
      }
    } else {
      FifoSame(q);
    }
  }

  lemma FifoSame(q: seq<Id>)
    ensures Fifo(q, q)
  {
    FifoAppend(q, []);
    assert q + [] == q;
  }

  /** The end of a task puts the tasks that it frees behind all others. */
  lemma FinishFifo(s: State, c: Id, signal: bool)
    requires Shape(s) && QueueOk(s) && c < |s.g.info| && s.g.info[c].parent < c
    ensures Fifo(s.queue, Finish(s, c, signal).queue)
  {
    FinishParts(s, c, signal);
    FifoAppend(s.queue, Ready(s.g, c)) by {
      forall y | y in Ready(s.g, c) ensures y !in s.queue {
        assert s.g.dependees[y] == 1;
      }
    }
  }

  /** The queue is first come, first served: every step keeps the order of the tasks that stay in it, new ones come behind, and a
      thread at the barrier takes the first. */
  lemma QueueFifo(s: State, step: Step)
    requires TeamInv(s) && Enabled(s, step)
    ensures Safe(s, step) && Fifo(s.queue, Apply(s, step).queue)
    ensures step.TakesTask? ==> Apply(s, step).phase[step.i].BarrierRun? && Apply(s, step).phase[step.i].child == s.queue[0]
  {
    hide ThreadInv, Fifo, Minus, Spawn, SpawnUndeferred, RingsOk, CountsRight, Roles, Inv, Finish;
    StepInv(s, step);
    hide Safe;
    FifoSame(s.queue);
    match step
    case CreateTask(p, depend, nout) =>
      FifoAppend(s.queue, [|s.g.info|]);
    case HelpedEnds(p) => FinishFifo(s, s.phase[p].child, false);
    case TakenEnds(i) => FinishFifo(s, s.phase[i].child, true);
    case PassesTaskwait(p) => if s.children[p] != [] { FifoMinus(s.queue, s.children[p][0]); }
    case TakesTask(i) => FifoMinus(s.queue, s.queue[0]);
    case _ =>
  }

  lemma StepExtends(s: State, step: Step)
    requires Reachable(s) && Shape(s) && Enabled(s, step) && Safe(s, step)
    ensures Reachable(Apply(s, step))
  {
    hide Enabled, Safe, Apply, Init;
    var n, states, steps :| IsRun(n, states, steps) && s in states;
    var k :| 0 <= k < |states| && states[k] == s;
    var states2, steps2 := states[..k + 1] + [Apply(s, step)], steps[..k] + [step];
    forall j | 0 <= j < |steps2|
      ensures Shape(states2[j]) && Enabled(states2[j], steps2[j]) && Safe(states2[j], steps2[j])
      ensures states2[j + 1] == Apply(states2[j], steps2[j])
    {
      assert j < k ==> states2[j] == states[j] && steps2[j] == steps[j] && states2[j + 1] == states[j + 1];
    }
    assert IsRun(n, states2, steps2) && Apply(s, step) in states2;
  }

  lemma {:induction false} RunInv(n: nat, states: seq<State>, steps: seq<Step>, k: nat)
    requires IsRun(n, states, steps) && k < |states|
    ensures TeamInv(states[k])
    decreases k
  {
    hide TeamInv, Enabled, Safe, Apply, Init;
    if k == 0 {
      InitInv(n);
    } else {
      RunInv(n, states, steps, k - 1);
      StepInv(states[k - 1], steps[k - 1]);
    }
  }

  lemma ReachableInv(s: State)
    requires Reachable(s)
    ensures TeamInv(s)
  {
    var n, states, steps :| IsRun(n, states, steps) && s in states;
    var k :| 0 <= k < |states| && states[k] == s;
    RunInv(n, states, steps, k);
  }

  // ---------------------------------------------------------------------------------------------------
  // Main results

  /** u was generated before v, by the same task, and their depend clauses conflict. */
  ghost predicate Precedes(g: Graph, u: Id, v: Id) {
    u < v < |g.info| && g.info[u].parent == g.info[v].parent < u && Conflict(g, u, v)
  }

  /**
    The depend clause is honoured in every run: a task, deferred or not, is only ever running or finished when
    every earlier sibling with a conflicting depend entry has finished.
   */
  lemma DependOrder(s: State, u: Id, v: Id)
    requires Reachable(s)
    ensures Shape(s) && (Precedes(s.g, u, v) && s.kind[v] != Waiting ==> u in s.g.done)
  {
    ReachableInv(s);
    hide Inv, Roles, QueueOk, RingsOk;
  }

  /**
    And never longer than needed: in every reachable state an unfinished waiting task is in the team queue if and
    only if every earlier conflicting sibling has finished.
   */
  lemma QueuedIff(s: State, v: Id)
    requires Reachable(s)
    ensures Shape(s)
    ensures Pending(s.g, v) && s.kind[v] == Waiting ==> (v in s.queue <==> forall u: Id :: Precedes(s.g, u, v) ==> u in s.g.done)
  {
    ReachableInv(s);
    if Pending(s.g, v) && s.kind[v] == Waiting {
      ReadyIff(s.g, v);
      hide Inv;
      if v in s.queue {
        InOrderStart(s, v);
        assert s.kind[v := Tied][v] != Waiting;
        forall u: Id | Precedes(s.g, u, v) ensures u in s.g.done {}
      }
      if forall u: Id :: Precedes(s.g, u, v) ==> u in s.g.done {
        forall u: Id ensures !MustWaitFor(s.g, u, v) {
          assert MustWaitFor(s.g, u, v) ==> Precedes(s.g, u, v);
        }
      }
    }
  }

  /** A deferred unfinished task with no active sibling at or below it cannot exist. */
  lemma PendingHasActive(g: Graph, t: Id) returns (r: Id)
    requires Inv(g) && Pending(g, t)
    ensures r <= t && Active(g, r) && g.info[r].parent == g.info[t].parent
  {
    if g.dependees[t] == 0 {
      r := t;
    } else {
      r := BlockedHasRunnable(g, t);
    }
  }

  /** GOMP_taskwait leaves only when no child is left, not even one that is blocked and in no ring. */
  lemma TaskwaitComplete(s: State, p: Id)
    requires Reachable(s)
    ensures Shape(s)
    ensures p < |s.g.info| && s.children[p] == [] && !s.phase[p].Undeferred? ==> ChildrenDone(s.g, p)
  {
    ReachableInv(s);
    if p < |s.g.info| && s.children[p] == [] && !s.phase[p].Undeferred? {
      EmptyRingDone(s, p);
    }
  }

  lemma EmptyRingDone(s: State, p: Id)
    requires TeamInv(s) && p < |s.g.info| && s.children[p] == [] && !s.phase[p].Undeferred?
    ensures ChildrenDone(s.g, p)
  {
    assert RingOk(s, p);
    hide QueueOk, RingsOk, CountsRight;
    assert forall r: Id :: Child(s.g, p, r) ==> !Active(s.g, r);
    forall c: Id | Child(s.g, p, c) ensures c in s.g.done {
      if Pending(s.g, c) {
        var r := PendingHasActive(s.g, c);
      }
    }
  }

  /**
    No wake-up is lost: a thread that sleeps in GOMP_taskwait without a posted semaphore has unfinished children,
    none of its children waits in the queue, and each child that is not blocked is being run by some thread.
   */
  lemma TaskwaitSleeps(s: State, p: Id)
    requires Reachable(s)
    ensures Shape(s)
    ensures p < |s.g.info| && s.phase[p] == Asleep && s.sem[p] == 0 ==>
      && !ChildrenDone(s.g, p)
      && forall c: Id :: Child(s.g, p, c) && Active(s.g, c) ==> c !in s.queue && exists r: Id :: Runs(s.phase, r, c)
  {
    ReachableInv(s);
    if p < |s.g.info| && s.phase[p] == Asleep && s.sem[p] == 0 {
      assert p in s.inTaskwait;
      assert RingOk(s, p);
      hide Inv, RingsOk, RingShape, CountsRight;
      var ring := s.children[p];
      assert ring[0] in ring;
      assert Child(s.g, p, ring[0]) && ring[0] !in s.g.done;
      forall c: Id | Child(s.g, p, c) && Active(s.g, c) ensures c !in s.queue && exists r: Id :: Runs(s.phase, r, c) {
        var k :| 0 <= k < |ring| && ring[k] == c;
        assert s.kind[c] == Tied;
      }
    }
  }

  /** The barrier opens only when every explicit task has ended, blocked and undeferred ones included. */
  lemma BarrierComplete(s: State, step: Step, t: Id)
    requires Reachable(s) && Shape(s) && Enabled(s, step) && Safe(s, step)
    requires Apply(s, step).epoch != s.epoch
    ensures var r := Apply(s, step); r.epoch == s.epoch + 1 && (s.nthreads <= t < |r.g.info| ==> t in r.g.done)
  {
    ReachableInv(s);
    BarrierOpens(s, step, t);
  }

  lemma BarrierOpens(s: State, step: Step, t: Id)
    requires TeamInv(s) && Enabled(s, step) && Safe(s, step) && Apply(s, step).epoch != s.epoch
    ensures var r := Apply(s, step); r.epoch == s.epoch + 1 && (s.nthreads <= t < |r.g.info| ==> t in r.g.done)
  {
    StepInv(s, step);
    hide Inv, QueueOk, RingsOk, Roles, ThreadInv, CountsRight;
    var r := Apply(s, step);
    EpochChange(s, step);
    if s.nthreads <= t < |r.g.info| {
      NoActiveAtDone(r, t);
    }
  }

  lemma EpochChange(s: State, step: Step)
    requires Shape(s) && Roles(s) && ThreadInv(s) && Enabled(s, step) && Safe(s, step) && Apply(s, step).epoch != s.epoch
    ensures var r := Apply(s, step); Shape(r) && r.epoch == s.epoch + 1 && r.taskCount == 0 && r.nthreads == s.nthreads
    ensures forall i: Id :: i < s.nthreads ==> Apply(s, step).phase[i].AtBarrier? || Apply(s, step).phase[i].BarrierRun?
  {
    hide UndeferredOk, RunnersOk, SleepersOk, InOrder, NothingToDo;
    match step
    case Arrives(i) =>
      ArrivedFull(s, i);
    case TakenEnds(i) =>
      EpochAtEnd(s, i);
    case _ =>
      EpochStays(s, step);
  }

  lemma EpochStays(s: State, step: Step)
    requires Shape(s) && Enabled(s, step) && Safe(s, step) && !step.Arrives? && !step.TakenEnds?
    ensures Apply(s, step).epoch == s.epoch
  {
    hide Finish, Spawn, SpawnUndeferred, Minus;
    match step
    case HelpedEnds(p) =>
      FinishParts(s, s.phase[p].child, false);
    case _ =>
  }

  lemma EpochAtEnd(s: State, i: Id)
    requires Shape(s) && Roles(s) && ThreadInv(s) && Enabled(s, TakenEnds(i)) && Safe(s, TakenEnds(i))
    requires BarrierEnd(s, i).epoch != s.epoch
    ensures var r := BarrierEnd(s, i); Shape(r) && r.epoch == s.epoch + 1 && r.taskCount == 0 && r.nthreads == s.nthreads
    ensures forall j: Id :: j < s.nthreads ==> BarrierEnd(s, i).phase[j].AtBarrier? || BarrierEnd(s, i).phase[j].BarrierRun?
  {
    hide UndeferredOk, RunnersOk, SleepersOk, InOrder, NothingToDo, Roles, Finish;
    FinishParts(s, s.phase[i].child, true);
    FullBarrier(s.phase, s.nthreads, s.epoch);
    forall j: Id | j < s.nthreads ensures s.phase[j].AtBarrier? || s.phase[j].BarrierRun? { assert Arrived(s.phase, j, s.epoch); }
  }

  lemma ArrivedFull(s: State, i: Id)
    requires Shape(s) && BarrierOk(s) && PhasesOk(s) && i < |s.phase| && s.phase[i] == Running && s.arrived + 1 == s.nthreads && i < s.nthreads
    ensures forall j: Id :: j < s.nthreads && j != i ==> s.phase[j].AtBarrier? || s.phase[j].BarrierRun?
  {
    hide PhasesOk, ArrivedSet;
    var phase' := s.phase[i := AtBarrier(s.epoch)];
    ArrivedMore(s.phase, s.nthreads, s.epoch, i);
    FullBarrier(phase', s.nthreads, s.epoch);
    forall j: Id | j < s.nthreads && j != i ensures s.phase[j].AtBarrier? || s.phase[j].BarrierRun? {
      assert Arrived(phase', j, s.epoch);
    }
  }

  lemma NoActiveAtDone(r: State, t: Id)
    requires TeamInv(r) && r.taskCount == 0 && r.nthreads <= t < |r.g.info|
    requires forall i: Id :: i < r.nthreads ==> r.phase[i].AtBarrier? || r.phase[i].BarrierRun?
    ensures t in r.g.done
  {
    assert forall a: Id :: a < |r.g.info| && Active(r.g, a) ==> a in ActiveSet(r.g);
    assert ActiveSet(r.g) == {};
    if Pending(r.g, t) {
      var a := PendingHasActive(r.g, t);
    } else if t !in r.g.done {
      hide Inv;
      var a := HostActive(r, t);
    }
  }

  /** A thread or a task that can go on. */
  ghost predicate CanMove(s: State, t: Id)
    requires Shape(s)
  {
    || CanAct(s, t)
    || Enabled(s, PassesTaskwait(t)) || Enabled(s, WakesUp(t)) || Enabled(s, TakesTask(t)) || Enabled(s, Leaves(t))
  }

  /** The team never deadlocks: in every reachable state some thread is in user code or can take a step. */
  lemma NeverStuck(s: State) returns (t: Id)
    requires Reachable(s)
    ensures Shape(s) && CanMove(s, t)
  {
    hide Inv, CountsRight, InOrder, UndeferredOk, RunnersOk, SleepersOk, NothingToDo, BarrierOk, QueueOk, RingsOk, Roles,
         Reachable;
    ReachableInv(s);
    t := LastStarted(s, |s.g.info|);
    StuckFree(s, t);
    if !CanMove(s, t) {
      t := BarrierMoves(s, t);
    }
  }

  /** A task that has started and not ended; no later one has. */
  ghost predicate IsLast(s: State, t: Id, n: nat)
    requires Shape(s)
  {
    && n <= |s.g.info| && t < n && Live(s.g, t) && s.kind[t] != Waiting
    && forall u: Id :: t < u < n && Live(s.g, u) ==> s.kind[u] == Waiting
  }

  lemma {:induction false} LastStarted(s: State, n: nat) returns (t: Id)
    requires Shape(s) && Roles(s) && PhasesOk(s) && 1 <= n <= |s.g.info|
    ensures IsLast(s, t, n)
    decreases n
  {
    if Live(s.g, n - 1) && s.kind[n - 1] != Waiting {
      t := n - 1;
    } else {
      t := LastStarted(s, n - 1);
    }
  }

  /** The last started task moves unless it is an implicit task at the barrier; then nothing else has started. */
  lemma StuckFree(s: State, t: Id)
    requires Shape(s) && Roles(s) && ThreadInv(s) && RingsOk(s) && IsLast(s, t, |s.g.info|)
    ensures CanMove(s, t) || (t < s.nthreads && s.phase[t].AtBarrier?)
  {
    hide InOrder, BarrierOk;
    assert s.phase[t].Helping? || s.phase[t].BarrierRun? ==> Runs(s.phase, t, s.phase[t].child);
    match s.phase[t]
    case Undeferred(c) => hide RunnersOk, SleepersOk, NothingToDo, RingsOk;
    case Helping(c) => hide UndeferredOk, SleepersOk, NothingToDo, RingsOk;
    case BarrierRun(_, c) => hide UndeferredOk, SleepersOk, NothingToDo, RingsOk;
    case Asleep =>
      hide UndeferredOk;
      assert RingOk(s, t);
      HeadIn(s.children[t]);
    case _ => hide RunnersOk, UndeferredOk, SleepersOk, NothingToDo, RingsOk;
  }

  /** With every started explicit task ended and the queue empty there is no task left, so somebody has yet to arrive. */
  lemma BarrierMoves(s: State, t: Id) returns (i: Id)
    requires TeamInv(s) && IsLast(s, t, |s.g.info|) && t < s.nthreads && s.queue == []
    ensures CanMove(s, i)
  {
    NobodyActive(s, t);
    hide Inv, QueueOk, InOrder;
    assert ActiveSet(s.g) == {};
    i := SomeoneMissing(s.phase, s.nthreads, s.epoch);
    Unoccupied(s, t, i);
  }

  /** With no active task an implicit task runs nothing and waits for nothing. */
  lemma Unoccupied(s: State, t: Id, i: Id)
    requires Shape(s) && Roles(s) && RingsOk(s) && ThreadInv(s) && IsLast(s, t, |s.g.info|) && t < s.nthreads && i < s.nthreads
    requires !Arrived(s.phase, i, s.epoch)
    requires forall a: Id :: a < |s.g.info| ==> !Active(s.g, a)
    ensures CanMove(s, i)
  {
    assert RingOk(s, i);
    HeadIn(s.children[i]);
    assert s.children[i] == [];
    assert forall c: Id :: !Runs(s.phase, i, c);
    assert s.phase[i].Helping? ==> Runs(s.phase, i, s.phase[i].child);
    assert s.phase[i].BarrierRun? ==> Runs(s.phase, i, s.phase[i].child);
    assert !s.phase[i].Undeferred?;
    assert i !in s.inTaskwait;
    assert Live(s.g, i) && s.kind[i] == Implicit;
    match s.phase[i]
    case Running => assert CanAct(s, i);
    case InTaskwait => assert Enabled(s, PassesTaskwait(i));
    case Asleep => assert Enabled(s, WakesUp(i));
    case AtBarrier(e) => assert Enabled(s, Leaves(i));
  }

  lemma NobodyActive(s: State, t: Id)
    requires DataInv(s) && IsLast(s, t, |s.g.info|) && t < s.nthreads && s.queue == []
    ensures forall a: Id :: a < |s.g.info| ==> !Active(s.g, a)
  {
    hide Inv, RingsOk;
    forall a: Id | a < |s.g.info| ensures !Active(s.g, a) {
      assert a !in s.queue;
      assert a < s.nthreads ==> s.kind[a] == Implicit;
    }
  }

  lemma AllArrived(phase: seq<Phase>, n: nat, epoch: nat)
    requires forall j: Id :: j < n ==> Arrived(phase, j, epoch)
    ensures |ArrivedSet(phase, n, epoch)| == n
  {
    assert ArrivedSet(phase, n, epoch) == Below(n);
  }

  lemma SomeoneMissing(phase: seq<Phase>, n: nat, epoch: nat) returns (i: Id)
    requires |ArrivedSet(phase, n, epoch)| != n
    ensures i < n && !Arrived(phase, i, epoch)
  {
    if forall j: Id :: j < n ==> Arrived(phase, j, epoch) {
      AllArrived(phase, n, epoch);
    }
    i :| i < n && !Arrived(phase, i, epoch);
  }
}
