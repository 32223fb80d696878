/** Handing out the iterations of a loop that a balancer has mapped: each thread scans the task map for its own. */
module LoopDispatch {

  datatype Kind = BinLpt | Srr

  /** The first task at or after i that is mapped to thread t, or the number of tasks. */
  function Find(taskmap: seq<nat>, t: nat, i: nat): (j: nat)
    requires i <= |taskmap|
    ensures i <= j <= |taskmap| && (j < |taskmap| ==> taskmap[j] == t)
    ensures forall x :: i <= x < j ==> taskmap[x] != t
    decreases |taskmap| - i
  {
    if i == |taskmap| || taskmap[i] == t then i else Find(taskmap, t, i + 1)
  }

  /** The end of the run of tasks of thread t that begins before i. */
  function RunEnd(taskmap: seq<nat>, t: nat, i: nat): (j: nat)
    requires i <= |taskmap|
    ensures i <= j <= |taskmap| && (j < |taskmap| ==> taskmap[j] != t)
    ensures forall x :: i <= x < j ==> taskmap[x] == t
    decreases |taskmap| - i
  {
    if i == |taskmap| || taskmap[i] != t then i else RunEnd(taskmap, t, i + 1)
  }

  function BlockEnd(kind: Kind, taskmap: seq<nat>, t: nat, i: nat): nat
    requires i < |taskmap|
  {
    if kind == BinLpt then RunEnd(taskmap, t, i + 1) else i + 1
  }

  /** A block of tasks lo .. hi - 1 that was handed to a thread. */
  datatype Grant = Grant(t: nat, lo: nat, hi: nat)

  /** Where each thread continues its search, and what has been handed out, in order. */
  datatype State = State(starts: seq<nat>, log: seq<Grant>)

  /** A call of gomp_iter_binlpt_next or gomp_iter_srr_next by thread t; nothing is shared but the task map. */
  function Next(kind: Kind, taskmap: seq<nat>, s: State, t: nat): State
    requires t < |s.starts| && s.starts[t] <= |taskmap|
  {
    var i := Find(taskmap, t, s.starts[t]);
    if i == |taskmap| then s
    else
      var j := BlockEnd(kind, taskmap, t, i);
      s.(starts := s.starts[t := j], log := s.log + [Grant(t, i, j)])
  }

  /** How often task x has been handed out. */
  function Times(log: seq<Grant>, x: nat): nat {
    if log == [] then 0
    else Times(log[..|log| - 1], x) + if log[|log| - 1].lo <= x < log[|log| - 1].hi then 1 else 0
  }

  ghost predicate StartsOk(kind: Kind, taskmap: seq<nat>, starts: seq<nat>) {
    && (forall x :: 0 <= x < |taskmap| ==> taskmap[x] < |starts|)
    && (forall t :: 0 <= t < |starts| ==> starts[t] <= |taskmap|)
    && (forall t :: 0 <= t < |starts| && kind == BinLpt && 0 < starts[t] < |taskmap| ==> taskmap[starts[t]] != t)
  }

  /** A task has been handed out once if the search of its thread has passed it, and not otherwise. */
  ghost predicate TimesOk(taskmap: seq<nat>, s: State) {
    forall x :: 0 <= x < |taskmap| && taskmap[x] < |s.starts| ==>
      Times(s.log, x) == if x < s.starts[taskmap[x]] then 1 else 0
  }

  ghost predicate GrantsOk(kind: Kind, taskmap: seq<nat>, s: State) {
    && (forall g :: 0 <= g < |s.log| ==>
          GrantOk(kind, taskmap, s.log[g]) && s.log[g].t < |s.starts| && s.log[g].hi <= s.starts[s.log[g].t])
    && (forall g, h :: 0 <= g < h < |s.log| && s.log[g].t == s.log[h].t ==> s.log[g].hi <= s.log[h].lo)
  }

  ghost predicate Inv(kind: Kind, taskmap: seq<nat>, s: State) {
    StartsOk(kind, taskmap, s.starts) && TimesOk(taskmap, s) && GrantsOk(kind, taskmap, s)
  }

  /** A block holds tasks of its thread only; under BinLPT it is a maximal run of them, under SRR a single one. */
  ghost predicate GrantOk(kind: Kind, taskmap: seq<nat>, g: Grant) {
    && g.lo < g.hi <= |taskmap|
    && (forall x :: g.lo <= x < g.hi ==> taskmap[x] == g.t)
    && (kind == BinLpt ==> (g.lo > 0 ==> taskmap[g.lo - 1] != g.t) && (g.hi < |taskmap| ==> taskmap[g.hi] != g.t))
    && (kind == Srr ==> g.hi == g.lo + 1)
  }

  lemma TimesNext(log: seq<Grant>, g: Grant, x: nat)
    ensures Times(log + [g], x) == Times(log, x) + if g.lo <= x < g.hi then 1 else 0
  {
    assert (log + [g])[..|log|] == log;
  }

  lemma NextTimes(kind: Kind, taskmap: seq<nat>, s: State, t: nat)
    requires StartsOk(kind, taskmap, s.starts) && TimesOk(taskmap, s) && t < |s.starts|
    ensures TimesOk(taskmap, Next(kind, taskmap, s, t))
  {
    hide Times;
    var i := Find(taskmap, t, s.starts[t]);
    if i < |taskmap| {
      var j, r := BlockEnd(kind, taskmap, t, i), Next(kind, taskmap, s, t);
      forall x | 0 <= x < |taskmap| && taskmap[x] < |s.starts| ensures Times(r.log, x) == if x < r.starts[taskmap[x]] then 1 else 0 {
        TimesNext(s.log, Grant(t, i, j), x);
      }
    }
  }

  lemma NextGrants(kind: Kind, taskmap: seq<nat>, s: State, t: nat)
    requires StartsOk(kind, taskmap, s.starts) && GrantsOk(kind, taskmap, s) && t < |s.starts|
    ensures GrantsOk(kind, taskmap, Next(kind, taskmap, s, t))
  {
    var i := Find(taskmap, t, s.starts[t]);
    if i < |taskmap| {
      var j := BlockEnd(kind, taskmap, t, i);
      assert GrantOk(kind, taskmap, Grant(t, i, j));
      hide GrantOk;
    }
  }

  lemma NextInv(kind: Kind, taskmap: seq<nat>, s: State, t: nat)
    requires Inv(kind, taskmap, s) && t < |s.starts|
    ensures Inv(kind, taskmap, Next(kind, taskmap, s, t))
  {
    NextTimes(kind, taskmap, s, t);
    NextGrants(kind, taskmap, s, t);
    hide TimesOk, GrantsOk;
  }

  ghost predicate Leads(kind: Kind, taskmap: seq<nat>, s: State, calls: seq<nat>, r: State)
    requires Inv(kind, taskmap, s)
    decreases |calls|
  {
    if calls == [] then r == s
    else
      && calls[0] < |s.starts|
      && (NextInv(kind, taskmap, s, calls[0]); Leads(kind, taskmap, Next(kind, taskmap, s, calls[0]), calls[1..], r))
  }

  lemma {:induction false} CallsInv(kind: Kind, taskmap: seq<nat>, s: State, calls: seq<nat>, r: State)
    requires Inv(kind, taskmap, s) && Leads(kind, taskmap, s, calls, r)
    ensures Inv(kind, taskmap, r) && |r.starts| == |s.starts|
    decreases |calls|
  {
    if calls != [] {
      NextInv(kind, taskmap, s, calls[0]);
      hide Inv;
      CallsInv(kind, taskmap, Next(kind, taskmap, s, calls[0]), calls[1..], r);
    }
  }

  lemma FreshInv(kind: Kind, taskmap: seq<nat>, nthreads: nat)
    requires forall x :: 0 <= x < |taskmap| ==> taskmap[x] < nthreads
    ensures Inv(kind, taskmap, State(seq(nthreads, _ => 0), []))
  {
  }

  /** Calls by the threads of a team, in some order, from the start of the loop. */
  ghost predicate Run(kind: Kind, taskmap: seq<nat>, nthreads: nat, calls: seq<nat>, r: State)
    requires forall x :: 0 <= x < |taskmap| ==> taskmap[x] < nthreads
  {
    FreshInv(kind, taskmap, nthreads);
    Leads(kind, taskmap, State(seq(nthreads, _ => 0), []), calls, r)
  }

  /** Whatever the order of the calls of the threads, no iteration is handed out twice, each goes to the thread it is mapped
      to, each thread gets its blocks in increasing order, and once every thread finds nothing more all iterations have
      been handed out. */
  lemma ExactlyOnce(kind: Kind, taskmap: seq<nat>, nthreads: nat, calls: seq<nat>, r: State)
    requires forall x :: 0 <= x < |taskmap| ==> taskmap[x] < nthreads
    requires Run(kind, taskmap, nthreads, calls, r)
    ensures forall x :: 0 <= x < |taskmap| ==> Times(r.log, x) <= 1
    ensures forall g :: 0 <= g < |r.log| ==> GrantOk(kind, taskmap, r.log[g])
    ensures forall g, h :: 0 <= g < h < |r.log| && r.log[g].t == r.log[h].t ==> r.log[g].hi <= r.log[h].lo
    ensures |r.starts| == nthreads && forall t :: 0 <= t < nthreads ==> r.starts[t] <= |taskmap|
    ensures (forall t :: 0 <= t < nthreads ==> Find(taskmap, t, r.starts[t]) == |taskmap|) ==>
              forall x :: 0 <= x < |taskmap| ==> Times(r.log, x) == 1
  {
    hide Leads, GrantOk, Times, Find, StartsOk, TimesOk, GrantsOk, Inv;
    FreshInv(kind, taskmap, nthreads);
    CallsInv(kind, taskmap, State(seq(nthreads, _ => 0), []), calls, r);
    Served(kind, taskmap, nthreads, r);
  }

  lemma Served(kind: Kind, taskmap: seq<nat>, nthreads: nat, r: State)
    requires Inv(kind, taskmap, r) && |r.starts| == nthreads
    ensures forall x :: 0 <= x < |taskmap| ==> Times(r.log, x) <= 1
    ensures forall g :: 0 <= g < |r.log| ==> GrantOk(kind, taskmap, r.log[g])
    ensures forall g, h :: 0 <= g < h < |r.log| && r.log[g].t == r.log[h].t ==> r.log[g].hi <= r.log[h].lo
    ensures forall t :: 0 <= t < nthreads ==> r.starts[t] <= |taskmap|
    ensures (forall t :: 0 <= t < nthreads ==> Find(taskmap, t, r.starts[t]) == |taskmap|) ==>
              forall x :: 0 <= x < |taskmap| ==> Times(r.log, x) == 1
  {
    hide Times, GrantOk;
    forall x | 0 <= x < |taskmap| ensures Times(r.log, x) == if x < r.starts[taskmap[x]] then 1 else 0 {
    }
    forall x | 0 <= x < |taskmap| ensures Find(taskmap, taskmap[x], r.starts[taskmap[x]]) == |taskmap| ==> x < r.starts[taskmap[x]] {
    }
  }

  datatype Result = Nothing | Block(istart: int, iend: int)

  /** The fields of the work share that the two routines use. */
  class Share {
    const taskmap: seq<nat>
    const threadStart: array<nat>
    const loopStart: int

    constructor (map_: seq<nat>, nthreads: nat, start: int)
      ensures taskmap == map_ && fresh(threadStart) && threadStart[..] == seq(nthreads, _ => 0) && loopStart == start
    {
      taskmap, loopStart := map_, start;
      threadStart := new nat[nthreads](_ => 0);
    }

    /** The search loop. */
    method Search(tid: nat) returns (i: nat)
      requires tid < threadStart.Length && threadStart[tid] <= |taskmap|
      ensures i == Find(taskmap, tid, threadStart[tid])
    {
      i := threadStart[tid];
      while i < |taskmap| && taskmap[i] != tid
        invariant i <= |taskmap| && Find(taskmap, tid, i) == Find(taskmap, tid, threadStart[tid])
      {
        i := i + 1;
      }
    }

    /** gomp_iter_binlpt_next. */
    method BinLptNext(tid: nat, ghost log: seq<Grant>) returns (r: Result)
      requires tid < threadStart.Length && threadStart[tid] <= |taskmap|
      modifies threadStart
      ensures var s, e := State(old(threadStart[..]), log), Next(BinLpt, taskmap, State(old(threadStart[..]), log), tid);
              && threadStart[..] == e.starts
              && (r.Nothing? ==> e == s)
              && (r.Block? ==> |e.log| == |log| + 1 && e.log[|log|] == Grant(tid, e.log[|log|].lo, e.log[|log|].hi)
                               && r == Block(loopStart + e.log[|log|].lo, loopStart + e.log[|log|].hi))
    {
      var i := Search(tid);
      if i == |taskmap| {
        return Nothing;
      }
      var j := i + 1;
      while j < |taskmap| && taskmap[j] == tid
        invariant i < j <= |taskmap| && RunEnd(taskmap, tid, j) == RunEnd(taskmap, tid, i + 1)
      {
        j := j + 1;
      }
      threadStart[tid] := j;
      return Block(loopStart + i, loopStart + j);
    }

    /** gomp_iter_srr_next. */
    method SrrNext(tid: nat, ghost log: seq<Grant>) returns (r: Result)
      requires tid < threadStart.Length && threadStart[tid] <= |taskmap|
      modifies threadStart
      ensures var s, e := State(old(threadStart[..]), log), Next(Srr, taskmap, State(old(threadStart[..]), log), tid);
              && threadStart[..] == e.starts
              && (r.Nothing? ==> e == s)
              && (r.Block? ==> |e.log| == |log| + 1 && r == Block(loopStart + e.log[|log|].lo, loopStart + e.log[|log|].hi))
    {
      var i := Search(tid);
      if i == |taskmap| {
        return Nothing;
      }
      threadStart[tid] := i + 1;
      return Block(loopStart + i, loopStart + i + 1);
    }
  }
}
