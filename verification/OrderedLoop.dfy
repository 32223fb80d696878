/** The ordered construct of a dynamic or guided loop: a circular queue of the threads that hold iteration blocks, and
    one token that is an owner field, a posted semaphore, or a thread on its way from one to the other. */
module OrderedLoop {
  import opened Sequences

  /** A thread of the team. With block b in hand it is before iteration i of that block; gomp_ordered_sync takes it from
      Working to Owning, directly or by way of a semaphore wait (Waiting) and the store of the owner field (Posted). */
  datatype Phase =
    | NotStarted
    | Working(b: nat, i: nat)
    | Waiting(b: nat, i: nat)
    | Posted(b: nat, i: nat)
    | Owning(b: nat, i: nat)
    | Done

  predicate HasBlock(p: Phase) {
    !p.NotStarted? && !p.Done?
  }

  /** n threads. Block b consists of the iterations cut[b] .. cut[b + 1]; the first `given` blocks are allocated. The
      queue occupies `used` places of the ring from place cur; log lists the iterations whose section has run. */
  datatype State = State(n: nat, cut: seq<nat>, given: nat, ring: seq<nat>, cur: nat, used: nat, owner: int,
                         sem: seq<nat>, phase: seq<Phase>, log: seq<nat>)

  ghost predicate Shape(s: State) {
    && s.n >= 1 && |s.ring| == s.n && |s.sem| == s.n && |s.phase| == s.n
    && s.cur < s.n && s.used <= s.n
    && s.given < |s.cut| && forall j, k :: 0 <= j <= k < |s.cut| ==> s.cut[j] <= s.cut[k]
  }

  /** The loop as gomp_init_work_share leaves it. */
  ghost predicate Initial(s: State) {
    && Shape(s) && s.given == 0 && s.cur == 0 && s.used == 0 && s.owner == -1 && s.log == []
    && forall t :: 0 <= t < s.n ==> s.sem[t] == 0 && s.phase[t].NotStarted?
  }

  // The queue.

  function Place(n: nat, cur: nat, j: nat): (p: nat)
    requires cur < n && j <= n
    ensures p < n
  {
    if cur + j >= n then cur + j - n else cur + j
  }

  /** The threads in the queue, head first. */
  function Queue(s: State): (q: seq<nat>)
    requires s.cur < s.n == |s.ring| && s.used <= s.n
    ensures |q| == s.used && forall j :: 0 <= j < s.used ==> q[j] == s.ring[Place(s.n, s.cur, j)]
  {
    seq(s.used, j requires 0 <= j < s.used => s.ring[Place(s.n, s.cur, j)])
  }

  ghost predicate QueueIds(s: State)
    requires Shape(s)
  {
    forall j :: 0 <= j < s.used ==> Queue(s)[j] < s.n
  }

  // The protocol's operations (ordered.c).

  function Post(s: State, t: nat): State
    requires t < |s.sem|
  {
    s.(sem := s.sem[t := s.sem[t] + 1])
  }

  /** gomp_ordered_first: join the queue; alone in it, post to oneself. */
  function First(s: State, t: nat): State
    requires Shape(s) && t < s.n
  {
    if s.n == 1 then s
    else
      var s1 := s.(ring := s.ring[Place(s.n, s.cur, s.used) := t], used := s.used + 1);
      if s.used == 0 then Post(s1, t) else s1
  }

  /** gomp_ordered_last: leave the queue; wake the next thread in it, if any. */
  function Last(s: State): State
    requires Shape(s) && QueueIds(s) && (s.n > 1 ==> s.used > 0)
  {
    if s.n == 1 then s
    else
      var s1 := s.(owner := -1, used := s.used - 1);
      if s1.used == 0 then s1
      else
        var next := Place(s.n, s.cur, 1);
        assert Queue(s)[1] == s.ring[next];
        Post(s1.(cur := next), s.ring[next])
  }

  /** gomp_ordered_next: move from the head to the tail, and wake the new head. */
  function Next(s: State, t: nat): State
    requires Shape(s) && t < s.n && QueueIds(s) && (s.n > 1 ==> s.used > 0)
  {
    if s.n == 1 then s
    else
      var s1 := s.(owner := -1);
      if s.used == 1 then Post(s1, t)
      else
        var s2 := if s.used < s.n then s1.(ring := s.ring[Place(s.n, s.cur, s.used) := t]) else s1;
        var next := Place(s.n, s.cur, 1);
        assert Queue(s)[1] == s.ring[next];
        Post(s2.(cur := next), s2.ring[next])
  }

  lemma FirstQueue(s: State, t: nat)
    requires Shape(s) && t < s.n && s.n > 1 && s.used < s.n
    ensures Queue(First(s, t)) == Queue(s) + [t]
  {
  }

  lemma LastQueue(s: State)
    requires Shape(s) && QueueIds(s) && s.n > 1 && s.used > 0
    ensures Last(s).cur < s.n && Queue(Last(s)) == Queue(s)[1..]
  {
    forall j | 0 <= j < s.used - 1 ensures Queue(Last(s))[j] == Queue(s)[j + 1] {
      assert Place(s.n, Place(s.n, s.cur, 1), j) == Place(s.n, s.cur, j + 1);
    }
  }

  /** A thread at the head that takes another block is at the tail, also when the queue is full and nothing is
      written. */
  lemma NextQueue(s: State, t: nat)
    requires Shape(s) && QueueIds(s) && s.n > 1 && s.used > 0 && t == Queue(s)[0]
    ensures t < s.n && Next(s, t).cur < s.n && Queue(Next(s, t)) == Queue(s)[1..] + [t]
  {
    var q := Queue(s)[1..] + [t];
    forall j | 0 <= j < s.used && s.used > 1 ensures Queue(Next(s, t))[j] == q[j] {
      assert Place(s.n, Place(s.n, s.cur, 1), j) ==
             if j + 1 == s.n then s.cur else Place(s.n, s.cur, j + 1);
      if j + 1 < s.used {
        assert q[j] == Queue(s)[j + 1];
      }
    }
  }

  // Steps.

  datatype Step =
    | Start(t: nat)     // under the lock: a first block, or none
    | Check(t: nat)     // gomp_ordered_sync reads the owner field
    | Wait(t: nat)      // the semaphore wait returns
    | Own(t: nat)       // the owner field is stored
    | Section(t: nat)   // the ordered section of an iteration runs
    | Skip(t: nat)      // an iteration ends without one
    | More(t: nat)      // under the lock: another block, or none

  ghost predicate Enabled(s: State, e: Step)
    requires Shape(s)
  {
    e.t < s.n &&
    var p := s.phase[e.t];
    match e {
      case Start(t) => p.NotStarted?
      case Check(t) => p.Working?
      case Wait(t) => p.Waiting? && s.sem[t] > 0
      case Own(t) => p.Posted?
      case Section(t) => p.Owning? && p.b + 1 < |s.cut| && p.i < s.cut[p.b + 1]
      case Skip(t) => p.Working? && p.b + 1 < |s.cut| && p.i < s.cut[p.b + 1]
      case More(t) => p.Owning? && p.b + 1 < |s.cut| && p.i == s.cut[p.b + 1]
    }
  }

  function SetPhase(s: State, t: nat, p: Phase): State
    requires t < |s.phase|
  {
    s.(phase := s.phase[t := p])
  }

  /** Thread t gets the next block. */
  function Take(s: State, t: nat): State
    requires t < |s.phase| && s.given < |s.cut|
  {
    SetPhase(s, t, Working(s.given, s.cut[s.given])).(given := s.given + 1)
  }

  /** The effect of a step; a block is allocated while one is left (gomp_iter_dynamic_next_locked and the guided
      form), under the lock that the queue is changed under. */
  ghost function Apply(s: State, e: Step): State
    requires Shape(s) && QueueIds(s) && Enabled(s, e)
    requires e.More? && s.n > 1 ==> s.used > 0
  {
    var p := s.phase[e.t];
    match e {
      case Start(t) =>
        if s.given + 1 < |s.cut| then
          Take(First(s, t), t)
        else SetPhase(s, t, Done)
      case Check(t) => SetPhase(s, t, if s.n == 1 || s.owner == t then Owning(p.b, p.i) else Waiting(p.b, p.i))
      case Wait(t) => SetPhase(s.(sem := s.sem[t := s.sem[t] - 1]), t, Posted(p.b, p.i))
      case Own(t) => SetPhase(s.(owner := t), t, Owning(p.b, p.i))
      case Section(t) => SetPhase(s.(log := s.log + [p.i]), t, Working(p.b, p.i + 1))
      case Skip(t) => SetPhase(s, t, Working(p.b, p.i + 1))
      case More(t) =>
        if s.given + 1 < |s.cut| then
          Take(Next(s, t), t)
        else SetPhase(Last(s), t, Done)
    }
  }

  // Invariant, in terms of the queue q.

  /** The queue holds exactly the threads with a block, in the order of their blocks, the last of which is the last
      allocated. */
  ghost predicate QueueOk(q: seq<nat>, phase: seq<Phase>, given: nat) {
    && |q| <= given
    && (forall j :: 0 <= j < |q| ==> q[j] < |phase| && HasBlock(phase[q[j]]) && phase[q[j]].b == given - |q| + j)
    && (forall t :: 0 <= t < |phase| && HasBlock(phase[t]) ==>
          given - |q| <= phase[t].b < given && q[phase[t].b - (given - |q|)] == t)
  }

  ghost predicate PlacesOk(phase: seq<Phase>, cut: seq<nat>, given: nat)
    requires given < |cut|
  {
    forall t :: 0 <= t < |phase| && HasBlock(phase[t]) ==>
      phase[t].b < given && cut[phase[t].b] <= phase[t].i <= cut[phase[t].b + 1]
  }

  ghost predicate AtHead(q: seq<nat>, t: int) {
    q != [] && q[0] == t
  }

  /** Exactly one token while the queue is not empty, and it is at the head: the head owns the section, or has its
      semaphore posted, or is between its wait and its store. With an empty queue there is none. */
  ghost predicate TokenOk(q: seq<nat>, owner: int, sem: seq<nat>, phase: seq<Phase>)
    requires |sem| == |phase|
  {
    && (forall t :: 0 <= t < |sem| ==> sem[t] == if AtHead(q, t) && owner == -1 && !phase[t].Posted? then 1 else 0)
    && (forall t :: 0 <= t < |phase| && phase[t].Posted? ==> AtHead(q, t) && owner == -1)
    && (owner == -1 || AtHead(q, owner))
    && (forall t :: 0 <= t < |phase| && phase[t].Owning? ==> owner == t)
    && (forall t :: 0 <= t < |phase| && phase[t].Waiting? ==> owner != t)
  }

  /** The first iteration whose section may still run: that of the thread at the head, or of the thread alone. */
  ghost function Front(q: seq<nat>, phase: seq<Phase>, cut: seq<nat>, given: nat): nat
    requires given < |cut| && |phase| > 0 && forall j :: 0 <= j < |q| ==> q[j] < |phase|
  {
    var h := if q != [] then q[0] else 0;
    if (q != [] || |phase| == 1) && HasBlock(phase[h]) then phase[h].i else cut[given]
  }

  ghost predicate LogOk(log: seq<nat>, front: nat) {
    && (forall j, k :: 0 <= j < k < |log| ==> log[j] < log[k])
    && (forall j :: 0 <= j < |log| ==> log[j] < front)
  }

  /** Alone, a thread takes one block after the other and the queue is not used. */
  ghost predicate AloneOk(s: State)
    requires Shape(s)
  {
    && s.used == 0 && s.owner == -1 && s.sem[0] == 0 && !s.phase[0].Waiting? && !s.phase[0].Posted?
    && (HasBlock(s.phase[0]) ==> s.phase[0].b + 1 == s.given)
  }

  ghost predicate Inv(s: State) {
    && Shape(s) && QueueIds(s)
    && PlacesOk(s.phase, s.cut, s.given)
    && LogOk(s.log, Front(Queue(s), s.phase, s.cut, s.given))
    && (s.n == 1 ==> AloneOk(s))
    && (s.n > 1 ==> QueueOk(Queue(s), s.phase, s.given) && TokenOk(Queue(s), s.owner, s.sem, s.phase))
    && (forall t :: 0 <= t < s.n && s.phase[t].Done? ==> s.given + 1 == |s.cut|)
  }

  lemma InitialInv(s: State)
    requires Initial(s)
    ensures Inv(s)
  {
  }

  // A thread moves on inside its block: its place in the queue stays.

  lemma QueueMove(q: seq<nat>, phase: seq<Phase>, given: nat, t: nat, p: Phase)
    requires QueueOk(q, phase, given) && t < |phase| && HasBlock(phase[t]) && HasBlock(p) && p.b == phase[t].b
    ensures QueueOk(q, phase[t := p], given)
  {
  }

  lemma PlacesMove(phase: seq<Phase>, cut: seq<nat>, given: nat, t: nat, p: Phase)
    requires given < |cut| && PlacesOk(phase, cut, given) && t < |phase|
    requires HasBlock(p) ==> p.b < given && cut[p.b] <= p.i <= cut[p.b + 1]
    ensures PlacesOk(phase[t := p], cut, given)
  {
  }

  lemma PlacesStay(phase: seq<Phase>, cut: seq<nat>, given: nat, t: nat, p: Phase)
    requires given < |cut| && PlacesOk(phase, cut, given) && t < |phase| && HasBlock(phase[t])
    requires HasBlock(p) && p.b == phase[t].b && phase[t].i <= p.i && (p.b + 1 < |cut| ==> p.i <= cut[p.b + 1])
    ensures PlacesOk(phase[t := p], cut, given)
  {
  }

  lemma DoneStay(phase: seq<Phase>, t: nat, p: Phase)
    requires t < |phase| && HasBlock(p)
    ensures forall u :: 0 <= u < |phase| && phase[t := p][u].Done? ==> phase[u].Done?
  {
  }

  lemma FrontMove(q: seq<nat>, phase: seq<Phase>, cut: seq<nat>, given: nat, t: nat, p: Phase)
    requires given < |cut| && t < |phase| && HasBlock(phase[t]) && HasBlock(p) && phase[t].i <= p.i
    requires forall j :: 0 <= j < |q| ==> q[j] < |phase|
    ensures Front(q, phase, cut, given) <= Front(q, phase[t := p], cut, given)
    ensures Front(q, phase, cut, given) == phase[t].i && (AtHead(q, t) || |phase| == 1) && (|phase| == 1 ==> q == []) ==>
              Front(q, phase[t := p], cut, given) == p.i
  {
  }

  lemma LogGrows(log: seq<nat>, front: nat, i: nat)
    requires LogOk(log, front) && front <= i
    ensures LogOk(log + [i], i + 1)
  {
  }

  /** gomp_ordered_sync, first part: the owner goes on, everyone else waits. */
  lemma TokenCheck(q: seq<nat>, owner: int, sem: seq<nat>, phase: seq<Phase>, t: nat, p: Phase)
    requires |sem| == |phase| && TokenOk(q, owner, sem, phase) && t < |phase|
    requires phase[t].Working? && if owner == t then p.Owning? else p.Waiting?
    ensures TokenOk(q, owner, sem, phase[t := p])
  {
  }

  /** The wait returns only for the head, and takes the token into transit. */
  lemma TokenWait(q: seq<nat>, owner: int, sem: seq<nat>, phase: seq<Phase>, t: nat, p: Phase)
    requires |sem| == |phase| && TokenOk(q, owner, sem, phase) && t < |phase|
    requires phase[t].Waiting? && sem[t] > 0 && p.Posted?
    ensures TokenOk(q, owner, sem[t := sem[t] - 1], phase[t := p])
  {
  }

  /** The thread in transit becomes the owner. */
  lemma TokenOwn(q: seq<nat>, owner: int, sem: seq<nat>, phase: seq<Phase>, t: nat, p: Phase)
    requires |sem| == |phase| && TokenOk(q, owner, sem, phase) && t < |phase|
    requires phase[t].Posted? && p.Owning?
    ensures TokenOk(q, t, sem, phase[t := p])
  {
  }

  lemma TokenWork(q: seq<nat>, owner: int, sem: seq<nat>, phase: seq<Phase>, t: nat, p: Phase)
    requires |sem| == |phase| && TokenOk(q, owner, sem, phase) && t < |phase|
    requires (phase[t].Working? || phase[t].Owning?) && p.Working?
    ensures TokenOk(q, owner, sem, phase[t := p])
  {
  }

  lemma SameQueue(s: State, r: State)
    requires Shape(s) && QueueIds(s)
    requires r == s.(phase := r.phase, owner := r.owner, sem := r.sem, log := r.log)
    requires |r.phase| == |r.sem| == s.n
    ensures Shape(r) && Queue(r) == Queue(s) && QueueIds(r)
  {
    assert Queue(r) == Queue(s);
  }

  lemma MoveInv(s: State, r: State, t: nat, p: Phase)
    requires Inv(s) && t < s.n && HasBlock(s.phase[t]) && HasBlock(p) && p.b == s.phase[t].b
    requires s.phase[t].i <= p.i && (p.b + 1 < |s.cut| ==> p.i <= s.cut[p.b + 1])
    requires r == s.(phase := s.phase[t := p], owner := r.owner, sem := r.sem, log := r.log)
    requires |r.sem| == s.n && LogOk(r.log, Front(Queue(s), r.phase, s.cut, s.given))
    requires s.n == 1 ==> AloneOk(r)
    requires s.n > 1 ==> TokenOk(Queue(s), r.owner, r.sem, r.phase)
    ensures Inv(r)
  {
    SameQueue(s, r);
    hide QueueOk, TokenOk, LogOk, Front, PlacesOk, AloneOk, Place, Queue;
    if s.n > 1 {
      Disassemble(s);
      hide Inv;
      MoveTeam(Queue(s), s, r, t, p);
      Assemble(r, Queue(s));
    } else {
      PlacesStay(s.phase, s.cut, s.given, t, p);
      DoneStay(s.phase, t, p);
    }
  }

  lemma MoveTeam(q: seq<nat>, s: State, r: State, t: nat, p: Phase)
    requires TeamInv(q, s.owner, s.sem, s.phase, s.cut, s.given, s.log)
    requires t < |s.phase| && HasBlock(s.phase[t]) && HasBlock(p) && p.b == s.phase[t].b
    requires s.phase[t].i <= p.i && (p.b + 1 < |s.cut| ==> p.i <= s.cut[p.b + 1])
    requires |r.sem| == |s.sem| && r.phase == s.phase[t := p] && r.cut == s.cut && r.given == s.given
    requires LogOk(r.log, Front(q, r.phase, s.cut, s.given)) && TokenOk(q, r.owner, r.sem, r.phase)
    ensures TeamInv(q, r.owner, r.sem, r.phase, r.cut, r.given, r.log)
  {
    hide QueueOk, TokenOk, LogOk, Front, PlacesOk;
    PlacesStay(s.phase, s.cut, s.given, t, p);
    QueueMove(q, s.phase, s.given, t, p);
    DoneStay(s.phase, t, p);
  }

  /** Only the thread at the head, or alone, can own the section. */
  lemma OwnerFront(s: State, t: nat)
    requires Inv(s) && t < s.n && s.phase[t].Owning?
    ensures Front(Queue(s), s.phase, s.cut, s.given) == s.phase[t].i
    ensures s.n > 1 ==> s.used > 0 && AtHead(Queue(s), t) && s.owner == t
    ensures s.n > 1 ==> s.phase[t].b == s.given - s.used
    ensures s.n == 1 ==> Queue(s) == []
  {
  }

  lemma LocalStepInv(s: State, e: Step)
    requires Inv(s) && Enabled(s, e) && !e.Start? && !e.More?
    ensures Inv(Apply(s, e))
  {
    hide Queue, QueueOk, TokenOk, LogOk, Front;
    LogStep(s, e);
    if s.n > 1 { TokenStep(s, e); }
    MoveInv(s, Apply(s, e), e.t, Apply(s, e).phase[e.t]);
  }

  lemma LogStep(s: State, e: Step)
    requires Inv(s) && Enabled(s, e) && !e.Start? && !e.More?
    ensures LogOk(Apply(s, e).log, Front(Queue(s), Apply(s, e).phase, s.cut, s.given))
  {
    if e.Section? { OwnerFront(s, e.t); }
    var r, t, q := Apply(s, e), e.t, Queue(s);
    QueuePlaces(s);
    hide Queue, QueueOk, TokenOk, LogOk, Front, AloneOk, PlacesOk;
    FrontMove(q, s.phase, s.cut, s.given, t, r.phase[t]);
    if e.Section? {
      LogGrows(s.log, s.phase[t].i, s.phase[t].i);
    } else {
      LogWeaker(s.log, Front(q, s.phase, s.cut, s.given), Front(q, r.phase, s.cut, s.given));
    }
  }

  lemma QueuePlaces(s: State)
    requires Inv(s)
    ensures forall j :: 0 <= j < |Queue(s)| ==> Queue(s)[j] < |s.phase|
  {
    hide Place, LogOk, Front, PlacesOk, TokenOk, QueueOk;
  }

  lemma TokenStep(s: State, e: Step)
    requires Inv(s) && s.n > 1 && Enabled(s, e) && !e.Start? && !e.More?
    ensures var r := Apply(s, e); TokenOk(Queue(s), r.owner, r.sem, r.phase)
  {
    hide Queue, QueueOk, TokenOk, LogOk, Front, PlacesOk;
    var q, t, p := Queue(s), e.t, Apply(s, e).phase[e.t];
    match e {
      case Check(_) => TokenCheck(q, s.owner, s.sem, s.phase, t, p);
      case Wait(_) => TokenWait(q, s.owner, s.sem, s.phase, t, p);
      case Own(_) => TokenOwn(q, s.owner, s.sem, s.phase, t, p);
      case Section(_) => TokenWork(q, s.owner, s.sem, s.phase, t, p);
      case Skip(_) => TokenWork(q, s.owner, s.sem, s.phase, t, p);
    }
  }

  lemma LogWeaker(log: seq<nat>, f: nat, g: nat)
    requires LogOk(log, f) && f <= g
    ensures LogOk(log, g)
  {
  }

  // A thread takes its first block, takes another, or leaves: the queue changes.

  lemma QueueJoin(q: seq<nat>, phase: seq<Phase>, given: nat, t: nat, p: Phase)
    requires QueueOk(q, phase, given) && t < |phase| && !HasBlock(phase[t]) && HasBlock(p) && p.b == given
    ensures QueueOk(q + [t], phase[t := p], given + 1)
  {
    var r, f := q + [t], phase[t := p];
    forall j | 0 <= j < |r| ensures r[j] < |f| && HasBlock(f[r[j]]) && f[r[j]].b == given + 1 - |r| + j {
      if j < |q| { assert q[j] != t; }
    }
  }

  /** A thread without a block leaves room in the queue. */
  lemma QueueRoom(q: seq<nat>, phase: seq<Phase>, given: nat, t: nat)
    requires QueueOk(q, phase, given) && t < |phase| && !HasBlock(phase[t])
    ensures |q| < |phase|
  {
    var others := set i: nat | i in Below(|phase|) && i != t;
    forall j, k | 0 <= j < k < |q| ensures q[j] != q[k] {
    }
    DistinctCount(q);
    assert (set i | i in q) <= Below(|phase|) - {t};
    SubsetSize((set i | i in q), Below(|phase|) - {t});
    assert t in Below(|phase|);
  }

  lemma QueueLeave(q: seq<nat>, phase: seq<Phase>, given: nat, t: nat)
    requires QueueOk(q, phase, given) && AtHead(q, t) && t < |phase|
    ensures QueueOk(q[1..], phase[t := Done], given)
  {
  }

  lemma QueueRotate(q: seq<nat>, phase: seq<Phase>, given: nat, t: nat, p: Phase)
    requires QueueOk(q, phase, given) && AtHead(q, t) && t < |phase| && HasBlock(p) && p.b == given
    ensures QueueOk(q[1..] + [t], phase[t := p], given + 1)
  {
    QueueLeave(q, phase, given, t);
    QueueJoin(q[1..], phase[t := Done], given, t, p);
    assert phase[t := Done][t := p] == phase[t := p];
  }

  lemma TokenJoin(q: seq<nat>, owner: int, sem: seq<nat>, phase: seq<Phase>, t: nat, p: Phase)
    requires |sem| == |phase| && TokenOk(q, owner, sem, phase) && t < |phase| && t !in q
    requires !HasBlock(phase[t]) && p.Working?
    ensures TokenOk(q + [t], owner, if q == [] then sem[t := sem[t] + 1] else sem, phase[t := p])
  {
  }

  /** The owner leaves: the next head is posted to. */
  lemma TokenLeave(q: seq<nat>, owner: int, sem: seq<nat>, phase: seq<Phase>, t: nat)
    requires |sem| == |phase| && TokenOk(q, owner, sem, phase) && t < |phase| && AtHead(q, t) && phase[t].Owning?
    requires |q| > 1 ==> q[1] < |phase| && q[1] != t
    ensures TokenOk(q[1..], -1, if |q| > 1 then sem[q[1] := sem[q[1]] + 1] else sem, phase[t := Done])
  {
  }

  /** Another thread stays out of the queue. */
  lemma QueueIdle(q: seq<nat>, phase: seq<Phase>, given: nat, t: nat, p: Phase)
    requires QueueOk(q, phase, given) && t < |phase| && !HasBlock(phase[t]) && !HasBlock(p)
    ensures QueueOk(q, phase[t := p], given) && t !in q
  {
  }

  lemma TokenIdle(q: seq<nat>, owner: int, sem: seq<nat>, phase: seq<Phase>, t: nat, p: Phase)
    requires |sem| == |phase| && TokenOk(q, owner, sem, phase) && t < |phase| && t !in q
    requires !HasBlock(phase[t]) && !HasBlock(p)
    ensures TokenOk(q, owner, sem, phase[t := p])
  {
  }

  lemma TokenRotate(q: seq<nat>, owner: int, sem: seq<nat>, phase: seq<Phase>, given: nat, t: nat, p: Phase)
    requires |sem| == |phase| && TokenOk(q, owner, sem, phase) && QueueOk(q, phase, given)
    requires t < |phase| && AtHead(q, t) && phase[t].Owning? && p.Working?
    requires |q| > 1 ==> q[1] < |phase|
    ensures var u := if |q| > 1 then q[1] else t;
            TokenOk(q[1..] + [t], -1, sem[u := sem[u] + 1], phase[t := p])
  {
    assert forall j :: 0 < j < |q| ==> q[j] != t;
    TokenLeave(q, owner, sem, phase, t);
    var sem1 := if |q| > 1 then sem[q[1] := sem[q[1]] + 1] else sem;
    TokenJoin(q[1..], -1, sem1, phase[t := Done], t, p);
    assert phase[t := Done][t := p] == phase[t := p];
  }

  lemma PlacesTake(phase: seq<Phase>, cut: seq<nat>, given: nat, t: nat)
    requires given + 1 < |cut| && PlacesOk(phase, cut, given) && t < |phase| && cut[given] <= cut[given + 1]
    ensures PlacesOk(phase[t := Working(given, cut[given])], cut, given + 1)
  {
  }

  /** Everything Inv says of a team of several threads, field by field. */
  ghost predicate TeamInv(q: seq<nat>, owner: int, sem: seq<nat>, phase: seq<Phase>, cut: seq<nat>, given: nat,
                          log: seq<nat>) {
    && |sem| == |phase| > 1 && given < |cut| && (forall j :: 0 <= j < |q| ==> q[j] < |phase|)
    && PlacesOk(phase, cut, given) && QueueOk(q, phase, given) && TokenOk(q, owner, sem, phase)
    && LogOk(log, Front(q, phase, cut, given))
    && (forall t :: 0 <= t < |phase| && phase[t].Done? ==> given + 1 == |cut|)
  }

  lemma Assemble(r: State, q: seq<nat>)
    requires Shape(r) && r.n > 1 && q == Queue(r) && TeamInv(q, r.owner, r.sem, r.phase, r.cut, r.given, r.log)
    ensures Inv(r)
  {
    hide TokenOk, LogOk, PlacesOk, QueueOk, Front, Place, Queue;
  }

  lemma Disassemble(s: State)
    requires Inv(s) && s.n > 1
    ensures TeamInv(Queue(s), s.owner, s.sem, s.phase, s.cut, s.given, s.log)
  {
    hide TokenOk, LogOk, PlacesOk, QueueOk, Front, Place, Queue;
  }

  lemma JoinInv(q: seq<nat>, owner: int, sem: seq<nat>, phase: seq<Phase>, cut: seq<nat>, given: nat, log: seq<nat>,
                t: nat)
    requires TeamInv(q, owner, sem, phase, cut, given, log) && t < |phase| && phase[t].NotStarted?
    requires given + 1 < |cut| && cut[given] <= cut[given + 1]
    ensures TeamInv(q + [t], owner, if q == [] then sem[t := sem[t] + 1] else sem,
                    phase[t := Working(given, cut[given])], cut, given + 1, log)
  {
    var p := Working(given, cut[given]);
    hide PlacesOk, LogOk, TokenOk, QueueOk, Front;
    QueueIdle(q, phase, given, t, Done);
    QueueJoin(q, phase, given, t, p);
    TokenJoin(q, owner, sem, phase, t, p);
    PlacesTake(phase, cut, given, t);
    FrontJoin(q, phase, cut, given, t);
  }

  lemma IdleInv(q: seq<nat>, owner: int, sem: seq<nat>, phase: seq<Phase>, cut: seq<nat>, given: nat, log: seq<nat>,
                t: nat)
    requires TeamInv(q, owner, sem, phase, cut, given, log) && t < |phase| && phase[t].NotStarted?
    requires given + 1 == |cut|
    ensures TeamInv(q, owner, sem, phase[t := Done], cut, given, log)
  {
    hide PlacesOk, LogOk, TokenOk, QueueOk, Front;
    QueueIdle(q, phase, given, t, Done);
    TokenIdle(q, owner, sem, phase, t, Done);
    PlacesMove(phase, cut, given, t, Done);
    FrontIdle(q, phase, cut, given, t);
  }

  lemma RotateInv(q: seq<nat>, owner: int, sem: seq<nat>, phase: seq<Phase>, cut: seq<nat>, given: nat, log: seq<nat>,
                  t: nat)
    requires TeamInv(q, owner, sem, phase, cut, given, log) && t < |phase| && phase[t].Owning? && AtHead(q, t)
    requires given + 1 < |cut| && cut[given] <= cut[given + 1]
    requires phase[t].b + 1 < |cut| && phase[t].i == cut[phase[t].b + 1] == Front(q, phase, cut, given)
    ensures var u := if |q| > 1 then q[1] else t;
            TeamInv(q[1..] + [t], -1, sem[u := sem[u] + 1],
                    phase[t := Working(given, cut[given])], cut, given + 1, log)
  {
    var p := Working(given, cut[given]);
    hide PlacesOk, LogOk, TokenOk, QueueOk, Front;
    QueueRotate(q, phase, given, t, p);
    TokenRotate(q, owner, sem, phase, given, t, p);
    PlacesTake(phase, cut, given, t);
    FrontRotate(q, phase, cut, given, t);
    LogWeaker(log, phase[t].i, Front(q[1..] + [t], phase[t := p], cut, given + 1));
  }

  lemma LeaveInv(q: seq<nat>, owner: int, sem: seq<nat>, phase: seq<Phase>, cut: seq<nat>, given: nat, log: seq<nat>,
                 t: nat)
    requires TeamInv(q, owner, sem, phase, cut, given, log) && t < |phase| && phase[t].Owning? && AtHead(q, t)
    requires given + 1 == |cut|
    requires phase[t].b + 1 < |cut| && phase[t].i == cut[phase[t].b + 1] == Front(q, phase, cut, given)
    ensures TeamInv(q[1..], -1, if |q| > 1 then sem[q[1] := sem[q[1]] + 1] else sem, phase[t := Done], cut, given, log)
  {
    hide PlacesOk, LogOk, TokenOk, QueueOk, Front;
    QueueSecond(q, phase, given, t);
    QueueLeave(q, phase, given, t);
    TokenLeave(q, owner, sem, phase, t);
    PlacesMove(phase, cut, given, t, Done);
    FrontLeave(q, phase, cut, given, t);
    LogWeaker(log, phase[t].i, Front(q[1..], phase[t := Done], cut, given));
  }

  lemma StartInv(s: State, t: nat)
    requires Inv(s) && t < s.n && s.n > 1 && s.phase[t].NotStarted?
    ensures Inv(Apply(s, Start(t)))
  {
    Disassemble(s);
    hide Inv, TeamInv, PlacesOk, LogOk, TokenOk, Front, QueueOk;
    if s.given + 1 < |s.cut| {
      FirstInv(s, t);
    } else {
      NoneInv(s, t);
    }
  }

  lemma FirstInv(s: State, t: nat)
    requires Shape(s) && QueueIds(s) && s.n > 1 && t < s.n && s.given + 1 < |s.cut| && s.phase[t].NotStarted?
    requires TeamInv(Queue(s), s.owner, s.sem, s.phase, s.cut, s.given, s.log)
    ensures Inv(Take(First(s, t), t))
  {
    hide Inv, TeamInv, PlacesOk, LogOk, TokenOk, Front, QueueOk;
    var q := Queue(s);
    TeamRoom(s, t);
    FirstQueue(s, t);
    SameTake(First(s, t), t);
    JoinInv(q, s.owner, s.sem, s.phase, s.cut, s.given, s.log, t);
    hide Queue;
    Assemble(Take(First(s, t), t), q + [t]);
  }

  lemma NoneInv(s: State, t: nat)
    requires Shape(s) && QueueIds(s) && s.n > 1 && t < s.n && s.given + 1 == |s.cut| && s.phase[t].NotStarted?
    requires TeamInv(Queue(s), s.owner, s.sem, s.phase, s.cut, s.given, s.log)
    ensures Inv(SetPhase(s, t, Done))
  {
    hide Inv, TeamInv, PlacesOk, LogOk, TokenOk, Front, QueueOk;
    var r, q := SetPhase(s, t, Done), Queue(s);
    IdleInv(q, s.owner, s.sem, s.phase, s.cut, s.given, s.log, t);
    assert Queue(r) == q;
    hide Queue;
    Assemble(r, q);
  }

  lemma TeamRoom(s: State, t: nat)
    requires Shape(s) && TeamInv(Queue(s), s.owner, s.sem, s.phase, s.cut, s.given, s.log)
    requires t < s.n && s.phase[t].NotStarted?
    ensures s.used < s.n
  {
    hide PlacesOk, LogOk, TokenOk, Front, QueueOk;
    QueueRoom(Queue(s), s.phase, s.given, t);
  }

  lemma SameTake(s: State, t: nat)
    requires Shape(s) && t < s.n && s.given + 1 < |s.cut|
    ensures Shape(Take(s, t)) && Queue(Take(s, t)) == Queue(s)
  {
  }

  lemma FrontJoin(q: seq<nat>, phase: seq<Phase>, cut: seq<nat>, given: nat, t: nat)
    requires given + 1 < |cut| && t < |phase| && QueueOk(q, phase, given) && t !in q && |phase| > 1
    requires forall j :: 0 <= j < |q + [t]| ==> (q + [t])[j] < |phase|
    ensures Front(q + [t], phase[t := Working(given, cut[given])], cut, given + 1) == Front(q, phase, cut, given)
  {
  }

  lemma FrontIdle(q: seq<nat>, phase: seq<Phase>, cut: seq<nat>, given: nat, t: nat)
    requires given < |cut| && t < |phase| && QueueOk(q, phase, given) && t !in q && |phase| > 1
    ensures Front(q, phase[t := Done], cut, given) == Front(q, phase, cut, given)
  {
  }

  lemma MoreInv(s: State, t: nat)
    requires Inv(s) && s.n > 1 && Enabled(s, More(t))
    ensures s.used > 0 && Inv(Apply(s, More(t)))
  {
    OwnerFront(s, t);
    Disassemble(s);
    hide Inv, TeamInv, PlacesOk, LogOk, TokenOk, Front, QueueOk;
    if s.given + 1 < |s.cut| {
      AnotherInv(s, t);
    } else {
      LastInv(s, t);
    }
  }

  lemma AnotherInv(s: State, t: nat)
    requires Shape(s) && QueueIds(s) && s.n > 1 && t < s.n && s.used > 0 && s.given + 1 < |s.cut|
    requires TeamInv(Queue(s), s.owner, s.sem, s.phase, s.cut, s.given, s.log) && AtHead(Queue(s), t)
    requires s.phase[t].Owning? && s.phase[t].b + 1 < |s.cut|
    requires s.phase[t].i == s.cut[s.phase[t].b + 1] == Front(Queue(s), s.phase, s.cut, s.given)
    ensures Inv(Take(Next(s, t), t))
  {
    hide Inv, TeamInv, PlacesOk, LogOk, TokenOk, Front, QueueOk;
    var q := Queue(s);
    NextQueue(s, t);
    SameTake(Next(s, t), t);
    RotateInv(q, s.owner, s.sem, s.phase, s.cut, s.given, s.log, t);
    NextFields(s, t);
    hide Next, Queue;
    Assemble(Take(Next(s, t), t), q[1..] + [t]);
  }

  lemma NextFields(s: State, t: nat)
    requires Shape(s) && QueueIds(s) && s.n > 1 && t < s.n && s.used > 0 && AtHead(Queue(s), t)
    ensures var u := if s.used > 1 then Queue(s)[1] else t;
            var r := Next(s, t);
            r == s.(owner := -1, sem := s.sem[u := s.sem[u] + 1], ring := r.ring, cur := r.cur)
  {
  }

  lemma LastInv(s: State, t: nat)
    requires Shape(s) && QueueIds(s) && s.n > 1 && t < s.n && s.used > 0 && s.given + 1 == |s.cut|
    requires TeamInv(Queue(s), s.owner, s.sem, s.phase, s.cut, s.given, s.log) && AtHead(Queue(s), t)
    requires s.phase[t].Owning? && s.phase[t].b + 1 < |s.cut|
    requires s.phase[t].i == s.cut[s.phase[t].b + 1] == Front(Queue(s), s.phase, s.cut, s.given)
    ensures Inv(SetPhase(Last(s), t, Done))
  {
    hide Inv, TeamInv, PlacesOk, LogOk, TokenOk, Front, QueueOk;
    var r, q := SetPhase(Last(s), t, Done), Queue(s);
    LastQueue(s);
    assert Queue(r) == q[1..];
    LeaveInv(q, s.owner, s.sem, s.phase, s.cut, s.given, s.log, t);
    assert s.used > 1 ==> s.ring[Place(s.n, s.cur, 1)] == q[1];
    hide Queue;
    Assemble(r, q[1..]);
  }

  lemma QueueSecond(q: seq<nat>, phase: seq<Phase>, given: nat, t: nat)
    requires QueueOk(q, phase, given) && AtHead(q, t)
    ensures |q| > 1 ==> q[1] < |phase| && q[1] != t
  {
  }

  /** The next head is at or after the end of the block that is left behind. */
  lemma FrontRotate(q: seq<nat>, phase: seq<Phase>, cut: seq<nat>, given: nat, t: nat)
    requires given + 1 < |cut| && t < |phase| && QueueOk(q, phase, given) && AtHead(q, t) && |phase| > 1
    requires PlacesOk(phase, cut, given) && HasBlock(phase[t]) && phase[t].i == cut[phase[t].b + 1]
    requires forall j :: 0 <= j < |q| ==> q[j] < |phase|
    ensures phase[t].i <= Front(q[1..] + [t], phase[t := Working(given, cut[given])], cut, given + 1)
  {
    if |q| > 1 {
      assert phase[q[1]].b == phase[t].b + 1;
    }
  }

  lemma FrontLeave(q: seq<nat>, phase: seq<Phase>, cut: seq<nat>, given: nat, t: nat)
    requires given < |cut| && t < |phase| && QueueOk(q, phase, given) && AtHead(q, t) && |phase| > 1
    requires PlacesOk(phase, cut, given) && HasBlock(phase[t]) && phase[t].i == cut[phase[t].b + 1]
    requires forall j :: 0 <= j < |q| ==> q[j] < |phase|
    ensures phase[t].i <= Front(q[1..], phase[t := Done], cut, given)
  {
    if |q| > 1 {
      assert phase[q[1]].b == phase[t].b + 1;
    }
  }

  lemma AloneStart(s: State, t: nat)
    requires Inv(s) && s.n == 1 && Enabled(s, Start(t))
    ensures Inv(Apply(s, Start(t)))
  {
    hide TokenOk, QueueOk;
    assert Queue(Apply(s, Start(t))) == Queue(s);
  }

  lemma AloneMore(s: State, t: nat)
    requires Inv(s) && s.n == 1 && Enabled(s, More(t))
    ensures Inv(Apply(s, More(t)))
  {
    hide TokenOk, QueueOk;
    assert Queue(Apply(s, More(t))) == Queue(s);
  }

  lemma MayApply(s: State, e: Step)
    requires Inv(s) && Enabled(s, e)
    ensures Shape(s) && QueueIds(s) && (e.More? && s.n > 1 ==> s.used > 0)
  {
    if e.More? { OwnerFront(s, e.t); }
  }

  /** Every step keeps the invariant. */
  lemma StepInv(s: State, e: Step)
    requires Inv(s) && Enabled(s, e) && (e.More? && s.n > 1 ==> s.used > 0)
    ensures Inv(Apply(s, e))
  {
    hide Inv, Apply, QueueOk, TokenOk, LogOk, PlacesOk;
    if !e.Start? && !e.More? {
      LocalStepInv(s, e);
    } else if s.n == 1 {
      if e.Start? { AloneStart(s, e.t); } else { AloneMore(s, e.t); }
    } else if e.Start? {
      StartInv(s, e.t);
    } else {
      MoreInv(s, e.t);
    }
  }

  // Runs.

  /** The state after a sequence of steps, each enabled when it is taken. */
  ghost predicate Leads(s: State, steps: seq<Step>, r: State)
    requires Inv(s)
    decreases |steps|
  {
    if steps == [] then r == s
    else
      && Enabled(s, steps[0])
      && (MayApply(s, steps[0]); StepInv(s, steps[0]); Leads(Apply(s, steps[0]), steps[1..], r))
  }

  /** A run of the team from its start. */
  ghost predicate Run(s: State, steps: seq<Step>, r: State) {
    Initial(s) && (InitialInv(s); Leads(s, steps, r))
  }

  /** In every interleaving of the team's steps the invariant holds throughout. */
  lemma {:induction false} RunInv(s: State, steps: seq<Step>, r: State)
    requires Inv(s) && Leads(s, steps, r)
    ensures Inv(r)
    decreases |steps|
  {
    hide Inv, Apply, Enabled;
    if steps != [] {
      MayApply(s, steps[0]);
      StepInv(s, steps[0]);
      RunInv(Apply(s, steps[0]), steps[1..], r);
    }
  }

  /** Ordered sections run one at a time and in the order of the iterations. */
  lemma SectionsInOrder(s: State, steps: seq<Step>, r: State)
    requires Run(s, steps, r)
    ensures forall j, k :: 0 <= j < k < |r.log| ==> r.log[j] < r.log[k]
    ensures forall t, u :: 0 <= t < |r.phase| && 0 <= u < |r.phase| && r.phase[t].Owning? && r.phase[u].Owning? ==> t == u
  {
    InitialInv(s);
    RunInv(s, steps, r);
  }

  function Sum(a: seq<nat>): nat {
    if a == [] then 0 else a[0] + Sum(a[1..])
  }

  function InTransit(phase: seq<Phase>): nat {
    if phase == [] then 0 else (if phase[0].Posted? then 1 else 0) + InTransit(phase[1..])
  }

  /** Tokens: an owner, the posts of all semaphores, and the threads between wait and store. */
  function Tokens(s: State): nat {
    (if s.owner == -1 then 0 else 1) + Sum(s.sem) + InTransit(s.phase)
  }

  lemma {:induction false} SumIndicator(a: seq<nat>, h: int)
    requires forall t :: 0 <= t < |a| ==> a[t] == if t == h then 1 else 0
    ensures Sum(a) == if 0 <= h < |a| then 1 else 0
  {
    if a != [] {
      SumIndicator(a[1..], h - 1);
    }
  }

  lemma {:induction false} TransitIndicator(phase: seq<Phase>, h: int)
    requires forall t :: 0 <= t < |phase| ==> (phase[t].Posted? <==> t == h)
    ensures InTransit(phase) == if 0 <= h < |phase| then 1 else 0
  {
    if phase != [] {
      TransitIndicator(phase[1..], h - 1);
    }
  }

  /** In a team of several threads there is exactly one token while a thread holds a block, and none otherwise. */
  lemma OneToken(s: State, steps: seq<Step>, r: State)
    requires s.n > 1 && Run(s, steps, r)
    ensures Tokens(r) == if exists t :: 0 <= t < |r.phase| && HasBlock(r.phase[t]) then 1 else 0
  {
    InitialInv(s);
    RunInv(s, steps, r);
    SameTeam(s, steps, r);
    Disassemble(r);
    CountTokens(Queue(r), r);
  }

  lemma ApplyTeam(s: State, e: Step)
    requires Shape(s) && QueueIds(s) && Enabled(s, e) && (e.More? && s.n > 1 ==> s.used > 0)
    ensures Apply(s, e).n == s.n && Apply(s, e).cut == s.cut
  {
    hide Place;
  }

  lemma {:induction false} SameTeam(s: State, steps: seq<Step>, r: State)
    requires Inv(s) && Leads(s, steps, r)
    ensures r.n == s.n && r.cut == s.cut
    decreases |steps|
  {
    if steps != [] {
      MayApply(s, steps[0]);
      StepInv(s, steps[0]);
      ApplyTeam(s, steps[0]);
      hide Inv, Apply, Enabled;
      SameTeam(Apply(s, steps[0]), steps[1..], r);
    }
  }

  lemma CountTokens(q: seq<nat>, r: State)
    requires TeamInv(q, r.owner, r.sem, r.phase, r.cut, r.given, r.log)
    ensures Tokens(r) == if exists t :: 0 <= t < |r.phase| && HasBlock(r.phase[t]) then 1 else 0
  {
    hide PlacesOk, LogOk, Front;
    var h := if q == [] then -1 else q[0];
    assert q != [] ==> HasBlock(r.phase[h]);
    var posted := h >= 0 && r.phase[h].Posted?;
    TransitIndicator(r.phase, if posted then h else -1);
    SumIndicator(r.sem, if posted || r.owner != -1 then -1 else h);
  }

  lemma QueueBlocks(q: seq<nat>, phase: seq<Phase>, given: nat)
    requires QueueOk(q, phase, given)
    ensures q == [] || exists t :: 0 <= t < |phase| && HasBlock(phase[t])
  {
    if q != [] {
      assert HasBlock(phase[q[0]]);
    }
  }

  /** When every thread is done, all blocks have been allocated, nobody owns the section and all semaphores are 0. */
  lemma LoopEnds(s: State, steps: seq<Step>, r: State)
    requires Run(s, steps, r)
    requires forall t :: 0 <= t < |r.phase| ==> r.phase[t].Done?
    ensures r.given + 1 == |r.cut| && r.owner == -1 && r.used == 0
    ensures forall t :: 0 <= t < |r.sem| ==> r.sem[t] == 0
  {
    InitialInv(s);
    RunInv(s, steps, r);
    assert r.phase[0].Done?;
    if r.n > 1 {
      Disassemble(r);
      QueueBlocks(Queue(r), r.phase, r.given);
      hide QueueOk;
    }
  }

  /** The protocol does not deadlock: while a thread is not done, some step is enabled. */
  lemma NeverStuck(s: State, steps: seq<Step>, r: State) returns (e: Step)
    requires Run(s, steps, r)
    requires exists t :: 0 <= t < |r.phase| && !r.phase[t].Done?
    ensures Shape(r) && Enabled(r, e)
  {
    InitialInv(s);
    RunInv(s, steps, r);
    hide Run, Initial;
    var t :| 0 <= t < |r.phase| && !r.phase[t].Done?;
    assert Shape(r);
    if r.phase[t].NotStarted? {
      e := Start(t);
    } else {
      var h := HeadMoves(r, t);
      hide Inv, Queue;
      var p := r.phase[h];
      e := if p.Working? then Check(h) else if p.Waiting? then Wait(h) else if p.Posted? then Own(h)
           else if p.i < r.cut[p.b + 1] then Section(h) else More(h);
    }
  }

  /** The head of the queue is never blocked. */
  lemma HeadMoves(r: State, t: nat) returns (h: nat)
    requires Inv(r) && t < r.n && HasBlock(r.phase[t])
    ensures h < r.n && HasBlock(r.phase[h]) && (r.phase[h].Waiting? ==> r.sem[h] > 0)
    ensures r.phase[h].b + 1 < |r.cut| && r.phase[h].i <= r.cut[r.phase[h].b + 1]
  {
    hide LogOk, Front, Place, Queue;
    h := if r.n == 1 then t else Queue(r)[0];
  }
}
