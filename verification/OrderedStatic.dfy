/** The ordered construct of a statically scheduled loop in a team of several threads: the token goes from each thread to
    the next in number, which has the next block. */
module OrderedStatic {
  import opened Arithmetic
  import opened OrderedLoop

  /** n threads; block b, of the iterations cut[b] .. cut[b + 1], belongs to thread b modulo n. pos counts the blocks that
      have been completed in order. */
  datatype Team = Team(n: nat, cut: seq<nat>, pos: nat, owner: int, sem: seq<nat>, phase: seq<Phase>, log: seq<nat>)

  function Blocks(s: Team): int {
    |s.cut| - 1
  }

  ghost predicate TeamShape(s: Team) {
    && s.n >= 2 && |s.sem| == s.n && |s.phase| == s.n && s.pos < |s.cut|
    && forall j, k :: 0 <= j <= k < |s.cut| ==> s.cut[j] <= s.cut[k]
  }

  /** The loop after gomp_ordered_static_init, which posts to thread 0. */
  ghost predicate Begun(s: Team) {
    && TeamShape(s) && s.pos == 0 && s.owner == -1 && s.log == []
    && forall t :: 0 <= t < s.n ==> s.sem[t] == (if t == 0 then 1 else 0) && s.phase[t].NotStarted?
  }

  /** gomp_ordered_static_next: the token goes to the numerically next thread. */
  function PassOn(s: Team, t: nat): Team
    requires t < s.n && s.n >= 2 && |s.sem| == s.n
  {
    var id := if t + 1 == s.n then 0 else t + 1;
    s.(owner := -1, sem := s.sem[id := s.sem[id] + 1])
  }

  function SetTo(s: Team, t: nat, p: Phase): Team
    requires t < |s.phase|
  {
    s.(phase := s.phase[t := p])
  }

  ghost predicate Can(s: Team, e: Step)
    requires TeamShape(s)
  {
    e.t < s.n &&
    var p := s.phase[e.t];
    match e {
      case Start(t) => p.NotStarted?
      case Check(t) => p.Working?
      case Wait(t) => p.Waiting? && s.sem[t] > 0
      case Own(t) => p.Posted?
      case Section(t) => p.Owning? && p.b + 1 < |s.cut| && p.i < s.cut[p.b + 1]
      case Skip(t) => p.Working? && p.b + 1 < |s.cut| && p.i < s.cut[p.b + 1]
      case More(t) => p.Owning? && p.b + 1 < |s.cut| && p.i == s.cut[p.b + 1]
    }
  }

  /** The effect of a step. A thread starts with the block of its own number, if there is one; after a block it passes the
      token on unless that block was the last of the loop, and goes on to its block n further, if there is one. */
  ghost function After(s: Team, e: Step): Team
    requires TeamShape(s) && Can(s, e)
  {
    var p := s.phase[e.t];
    match e {
      case Start(t) => SetTo(s, t, if t < Blocks(s) then Working(t, s.cut[t]) else Done)
      case Check(t) => SetTo(s, t, if s.owner == t then Owning(p.b, p.i) else Waiting(p.b, p.i))
      case Wait(t) => SetTo(s.(sem := s.sem[t := s.sem[t] - 1]), t, Posted(p.b, p.i))
      case Own(t) => SetTo(s.(owner := t), t, Owning(p.b, p.i))
      case Section(t) => SetTo(s.(log := s.log + [p.i]), t, Working(p.b, p.i + 1))
      case Skip(t) => SetTo(s, t, Working(p.b, p.i + 1))
      case More(t) =>
        var s1 := s.(pos := s.pos + 1);
        if p.b + 1 == Blocks(s) then SetTo(s1, t, Done)
        else SetTo(PassOn(s1, t), t, if p.b + s.n < Blocks(s) then Working(p.b + s.n, s.cut[p.b + s.n]) else Done)
    }
  }

  // Invariant.

  /** The thread that has, or had last, the token. */
  function Holder(s: Team): nat
    requires s.n > 0
  {
    if Blocks(s) <= 0 then 0 else if s.pos < Blocks(s) then s.pos % s.n else (Blocks(s) - 1) % s.n
  }

  /** b is the next block of thread t: the first at or after pos that is congruent to t. */
  predicate Mine(s: Team, t: nat, b: nat)
    requires s.n > 0
  {
    s.pos <= b < s.pos + s.n && b % s.n == t
  }

  ghost predicate ThreadOk(s: Team, t: nat)
    requires TeamShape(s) && t < s.n
  {
    var p := s.phase[t];
    && (p.NotStarted? && t < Blocks(s) ==> Mine(s, t, t))
    && (HasBlock(p) ==> Mine(s, t, p.b) && p.b < Blocks(s) && s.cut[p.b] <= p.i <= s.cut[p.b + 1])
    && (p.Done? ==> forall b: nat :: Mine(s, t, b) ==> b >= Blocks(s))
  }

  ghost function LogFront(s: Team): nat
    requires TeamShape(s)
  {
    if s.pos < Blocks(s) && HasBlock(s.phase[Holder(s)]) then s.phase[Holder(s)].i else s.cut[s.pos]
  }

  ghost predicate StaticInv(s: Team) {
    && TeamShape(s)
    && (forall t :: 0 <= t < s.n ==> ThreadOk(s, t))
    && TokenOk([Holder(s)], s.owner, s.sem, s.phase)
    && (s.pos == Blocks(s) > 0 ==> s.owner == Holder(s))
    && (Blocks(s) == 0 ==> s.owner == -1)
    && LogOk(s.log, LogFront(s))
  }

  lemma BegunInv(s: Team)
    requires Begun(s)
    ensures StaticInv(s)
  {
    forall t | 0 <= t < s.n ensures ThreadOk(s, t) {
      DivUnique(t, s.n, 0, t);
    }
    DivUnique(0, s.n, 0, 0);
  }

  /** In a window of n blocks each thread has one. */
  lemma OneInWindow(n: nat, pos: nat, b: nat, c: nat)
    requires n > 0 && pos <= b < pos + n && pos <= c < pos + n && b % n == c % n
    ensures b == c
  {
    var d := b / n - c / n;
    assert b - c == d * n by {
      assert b == b / n * n + b % n && c == c / n * n + c % n;
    }
    if d >= 1 { MulMonotone(1, d, n); } else if d <= -1 { MulMonotone(d, -1, n); }
  }

  lemma Wraps(n: nat, b: nat)
    requires n > 0
    ensures (b + n) % n == b % n
    ensures (b + 1) % n == if b % n + 1 == n then 0 else b % n + 1
  {
    var q, r := b / n, b % n;
    assert b == q * n + r && (q + 1) * n == q * n + n;
    DivUnique(b + n, n, q + 1, r);
    if r + 1 == n { DivUnique(b + 1, n, q + 1, 0); } else { DivUnique(b + 1, n, q, r + 1); }
  }

  /** The owner works on block pos. */
  lemma OwnerAtPos(s: Team, t: nat)
    requires StaticInv(s) && t < s.n && s.phase[t].Owning?
    ensures s.pos < Blocks(s) && Holder(s) == t == s.pos % s.n && s.phase[t].b == s.pos && s.owner == t
    ensures LogFront(s) == s.phase[t].i
  {
    assert ThreadOk(s, t);
    OneInWindow(s.n, s.pos, s.pos, s.phase[t].b) by { HolderBlock(s, t); }
  }

  lemma HolderBlock(s: Team, t: nat)
    requires TeamShape(s) && t < s.n && HasBlock(s.phase[t]) && ThreadOk(s, t) && t == Holder(s)
    ensures s.pos < Blocks(s) && s.phase[t].b % s.n == s.pos % s.n
  {
  }

  lemma SameThread(s: Team, r: Team, u: nat)
    requires TeamShape(s) && TeamShape(r) && r.n == s.n && r.cut == s.cut && r.pos == s.pos && u < s.n
    requires r.phase[u] == s.phase[u] && ThreadOk(s, u)
    ensures ThreadOk(r, u)
  {
    forall b: nat | Mine(r, u, b) ensures Mine(s, u, b) {
    }
  }

  lemma MovedThread(s: Team, r: Team, t: nat)
    requires TeamShape(s) && TeamShape(r) && r.n == s.n && r.cut == s.cut && r.pos == s.pos && t < s.n
    requires ThreadOk(s, t) && HasBlock(s.phase[t]) && HasBlock(r.phase[t])
    requires r.phase[t].b == s.phase[t].b && s.phase[t].i <= r.phase[t].i
    requires r.phase[t].b < Blocks(s) ==> r.phase[t].i <= s.cut[r.phase[t].b + 1]
    ensures ThreadOk(r, t)
  {
  }

  /** A thread moves on inside its block. */
  lemma MoveOk(s: Team, r: Team, t: nat)
    requires StaticInv(s) && |r.phase| == s.n && t < s.n && HasBlock(s.phase[t]) && HasBlock(r.phase[t])
    requires r == s.(phase := s.phase[t := r.phase[t]], owner := r.owner, sem := r.sem, log := r.log) && |r.sem| == s.n
    requires r.phase[t].b == s.phase[t].b && s.phase[t].i <= r.phase[t].i
    requires r.phase[t].b < Blocks(s) ==> r.phase[t].i <= s.cut[r.phase[t].b + 1]
    requires TokenOk([Holder(s)], r.owner, r.sem, r.phase) && (s.pos == Blocks(s) || Blocks(s) == 0 ==> r.owner == s.owner)
    requires LogOk(r.log, LogFront(r))
    ensures StaticInv(r)
  {
    hide TokenOk, LogOk, LogFront;
    forall u | 0 <= u < s.n ensures ThreadOk(r, u) {
      assert ThreadOk(s, u);
      hide ThreadOk;
      if u == t { MovedThread(s, r, t); } else { SameThread(s, r, u); }
    }
  }

  lemma LocalOk(s: Team, e: Step)
    requires StaticInv(s) && Can(s, e) && !e.Start? && !e.More?
    ensures StaticInv(After(s, e))
  {
    var r, t, q := After(s, e), e.t, [Holder(s)];
    var p := r.phase[t];
    assert ThreadOk(s, t);
    if e.Section? { OwnerAtPos(s, t); }
    FrontOk(s, r, t);
    hide TokenOk, LogOk;
    if e.Section? {
      LogGrows(s.log, s.phase[t].i, s.phase[t].i);
    } else {
      LogWeaker(s.log, LogFront(s), LogFront(r));
    }
    match e {
      case Check(_) => TokenCheck(q, s.owner, s.sem, s.phase, t, p);
      case Wait(_) => TokenWait(q, s.owner, s.sem, s.phase, t, p);
      case Own(_) => TokenOwn(q, s.owner, s.sem, s.phase, t, p);
      case Section(_) => TokenWork(q, s.owner, s.sem, s.phase, t, p);
      case Skip(_) => TokenWork(q, s.owner, s.sem, s.phase, t, p);
    }
    hide LogFront;
    MoveOk(s, r, t);
  }

  lemma FrontOk(s: Team, r: Team, t: nat)
    requires TeamShape(s) && |r.phase| == s.n && t < s.n && HasBlock(s.phase[t]) && HasBlock(r.phase[t])
    requires s.phase[t].i <= r.phase[t].i
    requires r == s.(phase := s.phase[t := r.phase[t]], owner := r.owner, sem := r.sem, log := r.log) && |r.sem| == s.n
    ensures LogFront(s) <= LogFront(r)
    ensures s.pos < Blocks(s) && t == Holder(s) ==> LogFront(r) == r.phase[t].i
  {
  }

  lemma TokenStart(q: seq<nat>, owner: int, sem: seq<nat>, phase: seq<Phase>, t: nat, p: Phase)
    requires |sem| == |phase| && TokenOk(q, owner, sem, phase) && t < |phase|
    requires phase[t].NotStarted? && (p.Working? || p.Done?)
    ensures TokenOk(q, owner, sem, phase[t := p])
  {
  }

  lemma StartOk(s: Team, t: nat)
    requires StaticInv(s) && Can(s, Start(t))
    ensures StaticInv(After(s, Start(t)))
  {
    var r := After(s, Start(t));
    StartFront(s, t);
    hide LogFront, LogOk, TokenOk;
    TokenStart([Holder(s)], s.owner, s.sem, s.phase, t, r.phase[t]);
    forall u | 0 <= u < s.n ensures ThreadOk(r, u) {
      assert ThreadOk(s, u);
      hide ThreadOk;
      if u == t { StartThread(s, r, t); } else { SameThread(s, r, u); }
    }
  }

  lemma StartThread(s: Team, r: Team, t: nat)
    requires TeamShape(s) && TeamShape(r) && t < s.n && ThreadOk(s, t) && s.phase[t].NotStarted?
    requires r.n == s.n && r.cut == s.cut && r.pos == s.pos
    requires r.phase[t] == if t < Blocks(s) then Working(t, s.cut[t]) else Done
    ensures ThreadOk(r, t)
  {
    forall b: nat | Mine(r, t, b) ensures t <= b {
      if b < t { DivUnique(b, s.n, 0, b); }
    }
  }

  lemma StartFront(s: Team, t: nat)
    requires StaticInv(s) && Can(s, Start(t))
    ensures LogFront(After(s, Start(t))) == LogFront(s)
  {
    assert ThreadOk(s, t);
    if s.pos < Blocks(s) && Holder(s) == t {
      if t < Blocks(s) {
        OneInWindow(s.n, s.pos, s.pos, t);
      } else {
        assert s.pos < t;
        DivUnique(s.pos, s.n, 0, s.pos);
      }
    }
  }

  /** The owner, the only thread in its queue, hands the token to u. */
  lemma TokenPass(owner: int, sem: seq<nat>, phase: seq<Phase>, t: nat, u: nat, p: Phase)
    requires |sem| == |phase| && TokenOk([t], owner, sem, phase) && t < |phase| && u < |phase| && u != t
    requires phase[t].Owning? && (p.Working? || p.Done?)
    ensures TokenOk([u], -1, sem[u := sem[u] + 1], phase[t := p])
  {
  }

  /** The owner of the last block keeps it. */
  lemma TokenKeep(owner: int, sem: seq<nat>, phase: seq<Phase>, t: nat)
    requires |sem| == |phase| && TokenOk([t], owner, sem, phase) && t < |phase| && phase[t].Owning?
    ensures TokenOk([t], owner, sem, phase[t := Done])
  {
  }

  /** When block pos is done, every other thread still has its next block before it. */
  lemma OthersStay(s: Team, r: Team, t: nat, u: nat)
    requires TeamShape(s) && TeamShape(r) && r.n == s.n && r.cut == s.cut && r.pos == s.pos + 1
    requires t == s.pos % s.n && u < s.n && u != t && r.phase[u] == s.phase[u] && ThreadOk(s, u)
    ensures ThreadOk(r, u)
  {
    forall b: nat | Mine(r, u, b) ensures Mine(s, u, b) {
      Wraps(s.n, s.pos);
    }
    assert forall b: nat :: Mine(s, u, b) ==> Mine(r, u, b);
  }

  lemma MoreOk(s: Team, t: nat)
    requires StaticInv(s) && Can(s, More(t))
    ensures StaticInv(After(s, More(t)))
  {
    OwnerAtPos(s, t);
    var r := After(s, More(t));
    hide TokenOk, LogOk;
    Wraps(s.n, s.pos);
    forall u | 0 <= u < s.n ensures ThreadOk(r, u) {
      assert ThreadOk(s, u);
      if u != t {
        OthersStay(s, r, t, u);
      } else {
        OwnNext(s, r, t);
      }
    }
    MoreFront(s, t);
    LogWeaker(s.log, LogFront(s), LogFront(r));
    if s.pos + 1 == Blocks(s) {
      TokenKeep(s.owner, s.sem, s.phase, t);
    } else {
      TokenPass(s.owner, s.sem, s.phase, t, Holder(r), r.phase[t]);
    }
  }

  lemma OwnNext(s: Team, r: Team, t: nat)
    requires TeamShape(s) && TeamShape(r) && r.n == s.n && r.cut == s.cut && r.pos == s.pos + 1 <= Blocks(s)
    requires t == s.pos % s.n
    requires r.phase[t] == if s.pos + s.n < Blocks(s) then Working(s.pos + s.n, s.cut[s.pos + s.n]) else Done
    ensures ThreadOk(r, t)
  {
    Wraps(s.n, s.pos);
    forall b: nat | Mine(r, t, b) ensures b == s.pos + s.n {
      OneInWindow(s.n, s.pos + 1, b, s.pos + s.n);
    }
  }

  /** The next block starts where the block that is done ends, or after. */
  lemma MoreFront(s: Team, t: nat)
    requires StaticInv(s) && Can(s, More(t))
    ensures TeamShape(After(s, More(t))) && LogFront(s) <= LogFront(After(s, More(t)))
  {
    OwnerAtPos(s, t);
    var r := After(s, More(t));
    hide TokenOk, LogOk;
    Wraps(s.n, s.pos);
    if r.pos < Blocks(r) {
      assert Holder(r) != t;
      assert ThreadOk(s, Holder(r));
      if HasBlock(r.phase[Holder(r)]) {
        OthersStay(s, r, t, Holder(r));
        OneInWindow(s.n, r.pos, r.pos, r.phase[Holder(r)].b);
      }
    }
  }

  /** Every step keeps the invariant. */
  lemma TeamStep(s: Team, e: Step)
    requires StaticInv(s) && Can(s, e)
    ensures StaticInv(After(s, e)) && After(s, e).n == s.n && After(s, e).cut == s.cut
  {
    hide StaticInv;
    match e {
      case Start(t) => StartOk(s, t);
      case More(t) => MoreOk(s, t);
      case _ => LocalOk(s, e);
    }
  }

  // Runs.

  ghost predicate Reaches(s: Team, steps: seq<Step>, r: Team)
    requires StaticInv(s)
    decreases |steps|
  {
    if steps == [] then r == s
    else Can(s, steps[0]) && (TeamStep(s, steps[0]); Reaches(After(s, steps[0]), steps[1..], r))
  }

  lemma {:induction false} TeamRun(s: Team, steps: seq<Step>, r: Team)
    requires StaticInv(s) && Reaches(s, steps, r)
    ensures StaticInv(r) && r.n == s.n && r.cut == s.cut
    decreases |steps|
  {
    if steps != [] {
      TeamStep(s, steps[0]);
      hide StaticInv, After, Can;
      TeamRun(After(s, steps[0]), steps[1..], r);
    }
  }

  /** A run of the team from its start. */
  ghost predicate Run(s: Team, steps: seq<Step>, r: Team) {
    Begun(s) && (BegunInv(s); Reaches(s, steps, r))
  }

  /** The blocks get the token in the order of the loop: sections run one at a time, in iteration order. */
  lemma BlocksInOrder(s: Team, steps: seq<Step>, r: Team)
    requires Run(s, steps, r)
    ensures forall j, k :: 0 <= j < k < |r.log| ==> r.log[j] < r.log[k]
    ensures forall t :: 0 <= t < |r.phase| && r.phase[t].Owning? ==> r.phase[t].b == r.pos && t == r.owner
  {
    BegunInv(s);
    TeamRun(s, steps, r);
    forall t | 0 <= t < |r.phase| && r.phase[t].Owning? ensures r.phase[t].b == r.pos && t == r.owner {
      OwnerAtPos(r, t);
    }
  }

  /** The token stops exactly at the last block: when every thread is done all blocks are, and no semaphore is posted, if
      and only if the loop had a block. An empty loop leaves the post of gomp_ordered_static_init behind. */
  lemma TokenStops(s: Team, steps: seq<Step>, r: Team)
    requires Run(s, steps, r)
    requires forall t :: 0 <= t < |r.phase| ==> r.phase[t].Done?
    ensures r.pos == Blocks(r) && r.n >= 2
    ensures (forall t :: 0 <= t < |r.sem| ==> r.sem[t] == 0) <==> Blocks(r) > 0
    ensures Blocks(r) == 0 ==> r.sem[0] == 1
    ensures Blocks(r) > 0 ==> r.owner == (Blocks(r) - 1) % r.n
  {
    BegunInv(s);
    TeamRun(s, steps, r);
    if r.pos < Blocks(r) {
      assert ThreadOk(r, r.pos % r.n);
      assert Mine(r, r.pos % r.n, r.pos);
    }
    assert AtHead([Holder(r)], Holder(r));
    if Blocks(r) == 0 {
      assert r.sem[0] == 1;
    } else {
      assert forall t :: 0 <= t < |r.sem| ==> r.sem[t] == 0;
    }
  }

  /** The protocol does not deadlock. */
  lemma StaticNeverStuck(s: Team, steps: seq<Step>, r: Team) returns (e: Step)
    requires Run(s, steps, r)
    requires exists t :: 0 <= t < |r.phase| && !r.phase[t].Done?
    ensures TeamShape(r) && Can(r, e)
  {
    BegunInv(s);
    TeamRun(s, steps, r);
    hide Run, Begun;
    assert TeamShape(r);
    var t :| 0 <= t < |r.phase| && !r.phase[t].Done?;
    if r.phase[t].NotStarted? {
      e := Start(t);
    } else {
      var h := HolderMoves(r, t);
      hide StaticInv;
      var p := r.phase[h];
      e := if p.NotStarted? then Start(h) else if p.Working? then Check(h) else if p.Waiting? then Wait(h)
           else if p.Posted? then Own(h) else if p.i < r.cut[p.b + 1] then Section(h) else More(h);
    }
  }

  /** The thread of the block that is next has not started it, or is never blocked in it. */
  lemma HolderMoves(r: Team, t: nat) returns (h: nat)
    requires StaticInv(r) && t < r.n && HasBlock(r.phase[t])
    ensures h < r.n && (r.phase[h].NotStarted? || HasBlock(r.phase[h])) && (r.phase[h].Waiting? ==> r.sem[h] > 0)
    ensures HasBlock(r.phase[h]) ==> r.phase[h].b + 1 < |r.cut| && r.phase[h].i <= r.cut[r.phase[h].b + 1]
  {
    hide LogOk, LogFront;
    assert ThreadOk(r, t);
    h := r.pos % r.n;
    assert Mine(r, h, r.pos) && ThreadOk(r, h);
  }
}
