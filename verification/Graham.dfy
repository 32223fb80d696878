/** Graham's factor for largest processing time first: against any assignment of the same jobs, no thread is loaded more
    than 4/3 - 1/(3 m) of the heaviest load of that assignment. */
module Graham {
  import opened Arithmetic
  import opened Sequences
  import opened Balance
  import opened BinLpt

  predicate Descending(s: seq<nat>) {
    forall i, j :: 0 <= i <= j < |s| ==> s[i] >= s[j]
  }

  /** An assignment of jobs to m threads in which no thread has more than c. */
  ghost predicate Within(jobs: seq<nat>, assign: seq<nat>, m: nat, c: nat) {
    && |assign| == |jobs| && (forall x :: 0 <= x < |assign| ==> assign[x] < m)
    && (forall t :: 0 <= t < m ==> OnThread(jobs, assign, t) <= c)
  }

  lemma WithinPrefix(jobs: seq<nat>, assign: seq<nat>, m: nat, c: nat)
    requires Within(jobs, assign, m, c) && jobs != []
    ensures |assign| == |jobs| && Within(jobs[..|jobs| - 1], assign[..|jobs| - 1], m, c)
    ensures jobs[|jobs| - 1] <= c
  {
    var n := |jobs| - 1;
    assert OnThread(jobs, assign, assign[n]) <= c;
    forall t: nat | t < m ensures OnThread(jobs[..n], assign[..n], t) <= c {
      assert OnThread(jobs, assign, t) <= c;
    }
  }

  function Loads(a: seq<nat>, p: seq<nat>, m: nat): (l: seq<nat>)
    requires |a| == |p|
    ensures |l| == m && forall t :: 0 <= t < m ==> l[t] == OnThread(a, p, t)
  {
    seq(m, t requires 0 <= t => OnThread(a, p, t))
  }

  lemma {:induction false} SumAtMost(s: seq<nat>, x: nat)
    requires forall t :: 0 <= t < |s| ==> s[t] <= x
    ensures Sum(s) <= |s| * x
  {
    if s != [] {
      SumAtMost(s[..|s| - 1], x);
      assert |s| * x == (|s| - 1) * x + x;
    } else {
      assert |s| * x == 0;
    }
  }

  /** All jobs together are at most m times c. */
  lemma WithinTotal(jobs: seq<nat>, assign: seq<nat>, m: nat, c: nat)
    requires Within(jobs, assign, m, c)
    ensures Sum(jobs) <= m * c
  {
    var l := Loads(jobs, assign, m);
    OnThreadsTotal(jobs, assign, m, l);
    SumAtMost(l, c);
  }

  /** Which thread the greedy rule gives each job to. */
  function Assigned(jobs: seq<nat>, m: nat): (p: seq<nat>)
    requires m > 0
    ensures |p| == |jobs| && forall x :: 0 <= x < |p| ==> p[x] < m
  {
    if jobs == [] then []
    else
      var n := |jobs| - 1;
      Assigned(jobs[..n], m) + [Least(Greedy(jobs[..n], m))]
  }

  lemma {:induction false} GreedyIsAssigned(jobs: seq<nat>, m: nat, t: nat)
    requires m > 0 && t < m
    ensures Greedy(jobs, m)[t] == OnThread(jobs, Assigned(jobs, m), t)
  {
    if jobs != [] {
      var n := |jobs| - 1;
      GreedyIsAssigned(jobs[..n], m, t);
      assert Assigned(jobs, m)[..n] == Assigned(jobs[..n], m);
    }
  }

  /** A job counts double if it leaves no room for the smallest job w. */
  function Counts(jobs: seq<nat>, w: nat, c: nat): (v: seq<nat>)
    ensures |v| == |jobs| && forall x :: 0 <= x < |v| ==> v[x] == if jobs[x] + w > c then 2 else 1
  {
    seq(|jobs|, x requires 0 <= x < |jobs| => if jobs[x] + w > c then 2 else 1)
  }

  /** When no three jobs fit on a thread, a thread that is not overloaded counts at most two. */
  lemma {:induction false} AtMostTwo(jobs: seq<nat>, p: seq<nat>, w: nat, c: nat, t: nat)
    requires |jobs| == |p| && 3 * w > c && OnThread(jobs, p, t) <= c
    requires forall x :: 0 <= x < |jobs| ==> jobs[x] >= w
    ensures var v := OnThread(Counts(jobs, w, c), p, t);
            v <= 2 && (v >= 1 ==> OnThread(jobs, p, t) >= w) && (v == 2 ==> OnThread(jobs, p, t) + w > c)
  {
    if jobs != [] {
      var n := |jobs| - 1;
      assert Counts(jobs, w, c)[..n] == Counts(jobs[..n], w, c);
      AtMostTwo(jobs[..n], p[..n], w, c, t);
    }
  }

  /** A thread without room for the smallest job counts at least two. */
  lemma {:induction false} AtLeastTwo(jobs: seq<nat>, p: seq<nat>, w: nat, c: nat, t: nat)
    requires |jobs| == |p| && w <= c
    ensures var v := OnThread(Counts(jobs, w, c), p, t);
            (v == 0 ==> OnThread(jobs, p, t) == 0) && (v <= 1 ==> OnThread(jobs, p, t) + w <= c)
  {
    if jobs != [] {
      var n := |jobs| - 1;
      assert Counts(jobs, w, c)[..n] == Counts(jobs[..n], w, c);
      AtLeastTwo(jobs[..n], p[..n], w, c, t);
    }
  }

  /** With jobs of more than a third of c, the greedy rule fits the last job in as well: counting says that otherwise there
      would be more jobs than any assignment within c holds. */
  lemma LargeJobs(jobs: seq<nat>, assign: seq<nat>, m: nat, c: nat)
    requires m > 0 && jobs != [] && Descending(jobs) && Within(jobs, assign, m, c) && 3 * jobs[|jobs| - 1] > c
    ensures var load := Greedy(jobs[..|jobs| - 1], m); load[Least(load)] + jobs[|jobs| - 1] <= c
  {
    hide Greedy, Within, Sum, OnThread;
    var n := |jobs| - 1;
    var w, load := jobs[n], Greedy(jobs[..n], m);
    WithinPrefix(jobs, assign, m, c);
    if load[Least(load)] + w > c {
      TwoEach(jobs, assign, m, w, c);
      TwoTaken(jobs[..n], m, w, c);
      CountsNext(jobs, w, c);
    }
  }

  lemma CountsNext(jobs: seq<nat>, w: nat, c: nat)
    requires jobs != []
    ensures Sum(Counts(jobs, w, c)) > Sum(Counts(jobs[..|jobs| - 1], w, c))
  {
    assert Counts(jobs, w, c)[..|jobs| - 1] == Counts(jobs[..|jobs| - 1], w, c);
  }

  /** No thread of an assignment within c has room for more than two, counting the large jobs twice. */
  lemma TwoEach(jobs: seq<nat>, assign: seq<nat>, m: nat, w: nat, c: nat)
    requires Within(jobs, assign, m, c) && 3 * w > c && Descending(jobs) && jobs != [] && w == jobs[|jobs| - 1]
    ensures Sum(Counts(jobs, w, c)) <= m * 2
  {
    hide Sum, OnThread;
    var v := Counts(jobs, w, c);
    forall t: nat | t < m ensures OnThread(v, assign, t) <= 2 { AtMostTwo(jobs, assign, w, c, t); }
    var all := Loads(v, assign, m);
    OnThreadsTotal(v, assign, m, all);
    SumAtMost(all, 2);
  }

  /** If the next job fits on no thread, every thread has two already. */
  lemma TwoTaken(before: seq<nat>, m: nat, w: nat, c: nat)
    requires m > 0 && w <= c && var load := Greedy(before, m); load[Least(load)] + w > c
    ensures Sum(Counts(before, w, c)) >= m * 2
  {
    hide Sum, OnThread, Greedy;
    var p := Assigned(before, m);
    forall t: nat | t < m ensures OnThread(Counts(before, w, c), p, t) >= 2 {
      GreedyIsAssigned(before, m, t);
      AtLeastTwo(before, p, w, c, t);
    }
    var some := Loads(Counts(before, w, c), p, m);
    OnThreadsTotal(Counts(before, w, c), p, m, some);
    SumAtLeast(some, 2);
  }

  /** The load x is at most 4/3 - 1/(3 m) of c. */
  predicate WithinFactor(m: nat, x: nat, c: nat)
    requires m > 0
  {
    3 * m * x <= (4 * m - 1) * c
  }

  /** With a last job of at most a third of c, the least loaded thread is low enough. */
  lemma SmallJob(m: nat, l: nat, w: nat, c: nat, total: nat)
    requires m > 0 && m * l <= total && total + w <= m * c && 3 * w <= c
    ensures WithinFactor(m, l + w, c)
  {
    assert m * (l + w) == m * l + m * w;
    assert m * w == (m - 1) * w + w;
    assert 3 * (m * (l + w)) <= 3 * (m * c) + 3 * ((m - 1) * w);
    MulMonotone(3 * w, c, m - 1);
    assert 3 * w * (m - 1) == 3 * ((m - 1) * w);
    assert (4 * m - 1) * c == 3 * (m * c) + c * (m - 1);
    assert 3 * m * (l + w) == 3 * (m * (l + w));
  }

  lemma SmallLast(jobs: seq<nat>, assign: seq<nat>, m: nat, c: nat)
    requires m > 0 && jobs != [] && Within(jobs, assign, m, c) && 3 * jobs[|jobs| - 1] <= c
    ensures var load := Greedy(jobs[..|jobs| - 1], m); WithinFactor(m, load[Least(load)] + jobs[|jobs| - 1], c)
  {
    hide WithinFactor, Within, Greedy, Least;
    var n := |jobs| - 1;
    var load := Greedy(jobs[..n], m);
    var l := load[Least(load)];
    WithinTotal(jobs, assign, m, c);
    GreedyTotal(jobs[..n], m);
    SumAtLeast(load, l);
    SmallJob(m, l, jobs[n], c, Sum(jobs[..n]));
  }

  lemma Fitting(m: nat, x: nat, c: nat)
    requires m > 0 && x <= c
    ensures WithinFactor(m, x, c)
  {
    MulMonotone(x, c, 3 * m);
    MulMonotone(3 * m, 4 * m - 1, c);
    assert x * (3 * m) == 3 * m * x && c * (3 * m) == 3 * m * c;
  }

  /** Graham's bound: 3 m times the load of any thread under largest processing time first is at most (4 m - 1) c, for
      every assignment of the same jobs within c. */
  lemma {:induction false} LptFactor(jobs: seq<nat>, assign: seq<nat>, m: nat, c: nat, t: nat)
    requires m > 0 && t < m && Descending(jobs) && Within(jobs, assign, m, c)
    ensures WithinFactor(m, Greedy(jobs, m)[t], c)
  {
    hide WithinFactor, Within;
    if jobs == [] {
      Fitting(m, 0, c);
    } else {
      var n := |jobs| - 1;
      var load, w := Greedy(jobs[..n], m), jobs[n];
      WithinPrefix(jobs, assign, m, c);
      if t != Least(load) {
        LptFactor(jobs[..n], assign[..n], m, c, t);
      } else if 3 * w > c {
        LargeJobs(jobs, assign, m, c);
        Fitting(m, load[t] + w, c);
      } else {
        SmallLast(jobs, assign, m, c);
      }
    }
  }

  /** BinLPT's threads stay within the factor of the best assignment of its chunks. */
  lemma BinLptFactor(tasks: seq<nat>, taskmap: seq<nat>, asc: seq<nat>, assign: seq<nat>, m: nat, c: nat, t: nat)
    requires m > 0 && t < m && Sorted(asc) && |taskmap| == |tasks|
    requires forall u :: 0 <= u < m ==> OnThread(tasks, taskmap, u) == Greedy(Heaviest(asc, |asc|), m)[u]
    requires Within(Heaviest(asc, |asc|), assign, m, c)
    ensures WithinFactor(m, OnThread(tasks, taskmap, t), c)
  {
    LptFactor(Heaviest(asc, |asc|), assign, m, c, t);
  }
}
