/** Bin packing followed by largest processing time first: consecutive tasks are packed into chunks of about equal weight,
    and the chunks are dealt, heaviest first, to the least loaded thread. */
module BinLpt {
  import opened Arithmetic
  import opened Sequences
  import opened Balance

  // Chunks.

  /** Where chunk k starts. */
  function Off(sizes: seq<nat>, k: nat): nat
    requires k <= |sizes|
  {
    Sum(sizes[..k])
  }

  lemma OffNext(sizes: seq<nat>, k: nat)
    requires k < |sizes|
    ensures Off(sizes, k + 1) == Off(sizes, k) + sizes[k]
  {
    SumNext(sizes, k);
  }

  lemma OffMonotone(sizes: seq<nat>, j: nat, k: nat)
    requires j <= k <= |sizes|
    ensures Off(sizes, j) <= Off(sizes, k) <= Sum(sizes)
  {
    SumPrefix(sizes, j, k);
  }

  function Weight(tasks: seq<nat>, sizes: seq<nat>, k: nat): nat
    requires k < |sizes| && Sum(sizes) == |tasks|
  {
    OffMonotone(sizes, k, k + 1);
    OffMonotone(sizes, k + 1, k + 1);
    Sum(tasks[Off(sizes, k)..Off(sizes, k + 1)])
  }

  /** Consecutive chunks of all tasks; each is at most one task above the average weight, the last not above it. */
  ghost predicate Chunking(tasks: seq<nat>, sizes: seq<nat>, largest: nat) {
    && |sizes| > 0 && Sum(sizes) == |tasks|
    && (forall k :: 0 <= k < |sizes| ==> Weight(tasks, sizes, k) <= Sum(tasks) / |sizes| + largest)
    && Weight(tasks, sizes, |sizes| - 1) <= Sum(tasks) / |sizes|
  }

  /** Where chunk k ends: a chunk goes on until it weighs more than w, and is not longer than that; the last one takes what is
      left, and after all tasks chunks are empty. */
  ghost predicate EndsRight(tasks: seq<nat>, sizes: seq<nat>, w: nat, k: nat)
    requires k < |sizes|
  {
    var o, e := Off(sizes, k), Off(sizes, k + 1);
    && o <= e <= |tasks|
    && if o == |tasks| then e == o
       else if k + 1 == |sizes| then e == |tasks|
       else o < e && Sum(tasks[o..e - 1]) <= w && (e < |tasks| ==> Sum(tasks[o..e]) > w)
  }

  /** The first k chunks end there. */
  ghost predicate EndRight(tasks: seq<nat>, sizes: seq<nat>, w: nat, k: nat) {
    k <= |sizes| && forall x: nat :: x < k ==> EndsRight(tasks, sizes, w, x)
  }

  /** No element is above w. */
  ghost predicate AtMost(s: seq<nat>, w: nat) {
    forall x :: 0 <= x < |s| ==> s[x] <= w
  }

  /** compute_cummulativesum, for a total that fits in an unsigned. */
  method CumulativeSum(a: array<nat>) returns (sum: array<nat>)
    requires a.Length > 0 && Sum(a[..]) < UINT
    ensures fresh(sum) && sum.Length == a.Length
    ensures forall i :: 0 <= i < a.Length ==> sum[i] == Sum(a[..i]) < UINT
  {
    var n := a.Length;
    sum := new nat[n];
    sum[0] := 0;
    var i := 1;
    while i < n
      invariant 1 <= i <= n
      invariant forall x :: 0 <= x < i ==> sum[x] == Sum(a[..][..x]) < UINT
    {
      SumNext(a[..], i - 1);
      SumPrefix(a[..], i, i);
      sum[i] := sum[i - 1] + a[i - 1];
      i := i + 1;
    }
    assert forall x :: 0 <= x < n ==> a[..][..x] == a[..x];
  }

  /** The least total of k chunks that are heavier than w. */
  function Above(k: nat, w: nat): nat {
    MulNonNegative(k, w + 1);
    k * (w + 1)
  }

  lemma AboveNext(k: nat, w: nat)
    ensures Above(0, w) == 0 && Above(k + 1, w) == Above(k, w) + w + 1
  {
  }

  function Average(total: nat, c: nat): (w: nat)
    requires c > 0
    ensures IsAverage(total, c, w)
  {
    DivMonotone(0, total, c);
    total / c
  }

  predicate IsAverage(total: nat, c: nat, w: nat) {
    c > 0 && w == total / c
  }

  /** What is known when the first k chunks have been cut and end at task i: none is heavier than b, all are above the
      average weight w while tasks remain, and a last chunk for the rest is still to come. */
  ghost predicate Cutting(tasks: seq<nat>, sizes: seq<nat>, k: nat, i: nat, w: nat, b: nat) {
    && k <= |sizes| && i <= |tasks| && i == Off(sizes, k)
    && (forall x :: k <= x < |sizes| ==> sizes[x] == 0)
    && (i < |tasks| ==> k < |sizes| && Sum(tasks[..i]) >= Above(k, w))
    && (forall x :: 0 <= x < k ==> Bounded(tasks, sizes, x, b))
    && (k == |sizes| ==> Bounded(tasks, sizes, k - 1, w))
  }

  /** Chunk x weighs at most b. */
  ghost predicate Bounded(tasks: seq<nat>, sizes: seq<nat>, x: int, b: nat) {
    0 <= x < |sizes| && Off(sizes, x) <= Off(sizes, x + 1) <= |tasks| && Sum(tasks[Off(sizes, x)..Off(sizes, x + 1)]) <= b
  }

  /** The average weight rounded down, plus one, is more than the average. */
  lemma AboveAverage(t: nat, c: nat, k: nat, p: nat, w: nat)
    requires IsAverage(t, c, w) && k + 1 == c && Above(k, w) <= p <= t
    ensures t - p <= w
  {
    assert t == w * c + t % c;
    assert c * (w + 1) == k * (w + 1) + w + 1;
    assert (w + 1) * c == w * c + c;
  }

  lemma BoundedStays(tasks: seq<nat>, sizes: seq<nat>, k: nat, z: nat, x: nat, b: nat)
    requires Bounded(tasks, sizes, x, b) && x < k < |sizes|
    ensures Bounded(tasks, sizes[k := z], x, b)
  {
    assert sizes[k := z][..x] == sizes[..x] && sizes[k := z][..x + 1] == sizes[..x + 1];
  }

  /** The weight of the next chunk: what it has without its last task is not above the average, and the rest of all is
      not when the others are above it. */
  lemma NextWeight(tasks: seq<nat>, c: nat, k: nat, i: nat, j: nat, w: nat, largest: nat)
    requires i < j <= |tasks| && IsAverage(Sum(tasks), c, w) && k < c
    requires Sum(tasks[..i]) >= Above(k, w) && AtMost(tasks, largest)
    requires if k + 1 == c then j == |tasks| else Sum(tasks[i..j - 1]) <= w
    ensures Sum(tasks[i..j]) <= w + if k + 1 == c then 0 else largest
  {
    hide IsAverage, Above;
    if k + 1 == c {
      hide AtMost;
      SumPrefix(tasks, i, j);
      assert tasks[..j] == tasks;
      AboveAverage(Sum(tasks), c, k, Sum(tasks[..i]), w);
    } else {
      SumNext(tasks[i..j], j - i - 1);
      assert tasks[i..j][..j - i] == tasks[i..j] && tasks[i..j][..j - i - 1] == tasks[i..j - 1];
    }
  }

  /** Cutting one more chunk, from i to j. */
  lemma CutOne(tasks: seq<nat>, sizes: seq<nat>, k: nat, i: nat, j: nat, w: nat, largest: nat)
    requires Cutting(tasks, sizes, k, i, w, w + largest) && i < j <= |tasks| && IsAverage(Sum(tasks), |sizes|, w)
    requires AtMost(tasks, largest)
    requires if k + 1 == |sizes| then j == |tasks|
             else (j < |tasks| ==> Sum(tasks[i..j]) > w) && Sum(tasks[i..j - 1]) <= w
    ensures k < |sizes| && Cutting(tasks, sizes[k := j - i], k + 1, j, w, w + largest)
  {
    hide Above, IsAverage, Sum, AtMost, Bounded;
    var r, b := sizes[k := j - i], w + largest;
    SumPrefix(tasks, i, j);
    AboveNext(k, w);
    forall x | 0 <= x < k ensures Bounded(tasks, r, x, b) {
      BoundedStays(tasks, sizes, k, j - i, x, b);
    }
    NewBounded(tasks, sizes, k, i, j, w, largest);
  }

  lemma EndRightNext(tasks: seq<nat>, sizes: seq<nat>, k: nat, i: nat, j: nat, w: nat)
    requires k < |sizes| && EndRight(tasks, sizes, w, k) && i == Off(sizes, k) && i < j <= |tasks|
    requires if k + 1 == |sizes| then j == |tasks|
             else (j < |tasks| ==> Sum(tasks[i..j]) > w) && Sum(tasks[i..j - 1]) <= w
    ensures EndRight(tasks, sizes[k := j - i], w, k + 1)
  {
    hide Sum;
    var r := sizes[k := j - i];
    forall x: nat | x < k + 1 ensures EndsRight(tasks, r, w, x) {
      assert r[..x] == sizes[..x];
      if x < k {
        assert EndsRight(tasks, sizes, w, x) && r[..x + 1] == sizes[..x + 1];
      } else {
        OffNext(r, k);
      }
    }
  }

  /** The chunks that were not needed. */
  lemma EndRightAll(tasks: seq<nat>, sizes: seq<nat>, k: nat, w: nat)
    requires EndRight(tasks, sizes, w, k) && Off(sizes, k) == |tasks| && forall x :: k <= x < |sizes| ==> sizes[x] == 0
    ensures EndRight(tasks, sizes, w, |sizes|)
  {
    hide Sum, Off;
    EmptyRest(sizes, k);
    forall x: nat | k <= x < |sizes| ensures EndsRight(tasks, sizes, w, x) {
      OffMonotone(sizes, k, x);
      OffMonotone(sizes, x, x + 1);
      OffMonotone(sizes, x + 1, x + 1);
    }
  }

  lemma NewBounded(tasks: seq<nat>, sizes: seq<nat>, k: nat, i: nat, j: nat, w: nat, largest: nat)
    requires k < |sizes| && i == Off(sizes, k) && i < j <= |tasks| && IsAverage(Sum(tasks), |sizes|, w)
    requires Sum(tasks[..i]) >= Above(k, w) && AtMost(tasks, largest)
    requires if k + 1 == |sizes| then j == |tasks| else Sum(tasks[i..j - 1]) <= w
    ensures var r := sizes[k := j - i];
            Off(r, k + 1) == j && Bounded(tasks, r, k, w + largest) && (k + 1 == |r| ==> Bounded(tasks, r, k, w))
  {
    hide Above, IsAverage, Sum, AtMost;
    var r := sizes[k := j - i];
    assert r[..k] == sizes[..k];
    OffNext(r, k);
    NextWeight(tasks, |sizes|, k, i, j, w, largest);
  }

  /** Element x is the sum of the first x tasks. */
  ghost predicate Prefixes(sums: seq<nat>, s: seq<nat>) {
    |sums| == |s| && forall x :: 0 <= x < |s| ==> sums[x] == Sum(s[..x])
  }

  /** The inner loop of compute_chunksizes: the chunk ends at the first task before which the weight is exceeded. */
  method ChunkEnd(workload: array<nat>, ghost s: seq<nat>, i: nat, chunkWeight: nat) returns (j: nat)
    requires i < workload.Length && Prefixes(workload[..], s)
    ensures i < j <= |s| && (j < |s| ==> Sum(s[i..j]) > chunkWeight) && Sum(s[i..j - 1]) <= chunkWeight
  {
    hide Sum;
    j := i + 1;
    assert Sum(s[i..i]) == 0 by { EmptySum(s, i); }
    while j < workload.Length
      invariant i < j <= |s| && Sum(s[i..j - 1]) <= chunkWeight
    {
      SumPrefix(s, i, j);
      if workload[j] - workload[i] > chunkWeight {
        break;
      }
      j := j + 1;
    }
  }

  lemma EmptySum(s: seq<nat>, i: nat)
    requires i <= |s|
    ensures Sum(s[i..i]) == 0 && Sum(s[..0]) == 0
  {
  }

  /** The prefix sums and the average weight of a chunk. */
  method Workload(tasks: array<nat>, nchunks: nat) returns (workload: array<nat>, chunkWeight: nat)
    requires 1 <= nchunks <= tasks.Length && Sum(tasks[..]) < UINT
    ensures fresh(workload) && Prefixes(workload[..], tasks[..]) && IsAverage(Sum(tasks[..]), nchunks, chunkWeight)
  {
    hide Sum, IsAverage;
    var n := tasks.Length;
    workload := CumulativeSum(tasks);
    ghost var s := tasks[..];
    assert forall x :: 0 <= x < n ==> tasks[..x] == s[..x];
    SumNext(s, n - 1);
    assert s[..n] == s;
    chunkWeight := Average(workload[n - 1] + tasks[n - 1], nchunks);
  }

  /** compute_chunksizes. */
  method ComputeChunkSizes(tasks: array<nat>, nchunks: nat, ghost largest: nat) returns (chunkSizes: array<nat>)
    requires 1 <= nchunks <= tasks.Length && Sum(tasks[..]) < UINT && AtMost(tasks[..], largest)
    ensures fresh(chunkSizes) && chunkSizes.Length == nchunks && Chunking(tasks[..], chunkSizes[..], largest)
    ensures EndRight(tasks[..], chunkSizes[..], Sum(tasks[..]) / nchunks, nchunks)
  {
    hide Cutting, Chunking, Prefixes, AtMost, Sum, EndRight;
    var n := tasks.Length;
    ghost var s := tasks[..];
    chunkSizes := new nat[nchunks](_ => 0);
    var workload, chunkWeight := Workload(tasks, nchunks);
    PrefixLength(workload[..], s);
    var k, i := 0, 0;
    CutNone(s, chunkSizes[..], chunkWeight, chunkWeight + largest);
    EndRightNone(s, chunkSizes[..], chunkWeight);
    while i < n
      invariant Cutting(s, chunkSizes[..], k, i, chunkWeight, chunkWeight + largest) && i <= n
      invariant EndRight(s, chunkSizes[..], chunkWeight, k)
      invariant Prefixes(workload[..], s)
      decreases n - i
      modifies chunkSizes
    {
      CutShape(s, chunkSizes[..], k, i, chunkWeight, chunkWeight + largest);
      var j := n;
      if k < nchunks - 1 {
        j := ChunkEnd(workload, s, i, chunkWeight);
      }
      CutOne(s, chunkSizes[..], k, i, j, chunkWeight, largest);
      EndRightNext(s, chunkSizes[..], k, i, j, chunkWeight);
      ghost var was: seq<nat> := chunkSizes[..];
      chunkSizes[k] := j - i;
      assert chunkSizes[..] == was[k := j - i];
      i := j;
      k := k + 1;
    }
    CutAll(s, chunkSizes[..], k, chunkWeight, largest);
    CutShape(s, chunkSizes[..], k, i, chunkWeight, chunkWeight + largest);
    EndRightAll(s, chunkSizes[..], k, chunkWeight);
  }

  lemma EndRightNone(tasks: seq<nat>, sizes: seq<nat>, w: nat)
    ensures EndRight(tasks, sizes, w, 0)
  {
  }

  lemma PrefixLength(sums: seq<nat>, s: seq<nat>)
    requires Prefixes(sums, s)
    ensures |sums| == |s|
  {
  }

  lemma CutNone(tasks: seq<nat>, sizes: seq<nat>, w: nat, b: nat)
    requires sizes != [] && forall x :: 0 <= x < |sizes| ==> sizes[x] == 0
    ensures Cutting(tasks, sizes, 0, 0, w, b)
  {
    AboveNext(0, w);
  }

  lemma CutShape(tasks: seq<nat>, sizes: seq<nat>, k: nat, i: nat, w: nat, b: nat)
    requires Cutting(tasks, sizes, k, i, w, b)
    ensures i <= |tasks| && k <= |sizes| && i == Off(sizes, k) && (i < |tasks| ==> k < |sizes|)
    ensures forall x :: k <= x < |sizes| ==> sizes[x] == 0
  {
  }

  /** When no tasks are left, the chunks that were not needed are empty. */
  lemma CutAll(tasks: seq<nat>, sizes: seq<nat>, k: nat, w: nat, largest: nat)
    requires Cutting(tasks, sizes, k, |tasks|, w, w + largest) && IsAverage(Sum(tasks), |sizes|, w)
    ensures Chunking(tasks, sizes, largest)
  {
    hide Sum, Off, Bounded, Above;
    EmptyRest(sizes, k) by { assert Off(sizes, k) == |tasks|; }
    forall x | 0 <= x < |sizes| ensures Weight(tasks, sizes, x) <= w + (if x < k && x + 1 < |sizes| then largest else 0) {
      if x < k {
        assert Bounded(tasks, sizes, x, w + largest);
        BoundedWeight(tasks, sizes, x, w + largest);
        if x + 1 == |sizes| { BoundedWeight(tasks, sizes, x, w); }
      } else {
        EmptyWeight(tasks, sizes, x);
      }
    }
  }

  lemma BoundedWeight(tasks: seq<nat>, sizes: seq<nat>, x: nat, b: nat)
    requires Bounded(tasks, sizes, x, b) && Sum(sizes) == |tasks|
    ensures Weight(tasks, sizes, x) <= b
  {
    hide Sum, Off;
  }

  lemma EmptyWeight(tasks: seq<nat>, sizes: seq<nat>, x: nat)
    requires x < |sizes| && sizes[x] == 0 && Sum(sizes) == |tasks|
    ensures Weight(tasks, sizes, x) == 0
  {
    hide Sum, Off;
    OffNext(sizes, x);
    OffMonotone(sizes, x + 1, x + 1);
    EmptySum(tasks, Off(sizes, x));
  }

  lemma {:induction false} EmptyRest(sizes: seq<nat>, k: nat)
    requires k <= |sizes| && forall x :: k <= x < |sizes| ==> sizes[x] == 0
    ensures Sum(sizes) == Off(sizes, k)
    decreases |sizes|
  {
    if k < |sizes| {
      var r := sizes[..|sizes| - 1];
      EmptyRest(r, k);
      assert r[..k] == sizes[..k];
    } else {
      assert sizes[..k] == sizes;
    }
  }

  /** The weights of the first i chunks are known; the others are still zero. */
  ghost predicate Weighed(chunks: seq<nat>, tasks: seq<nat>, sizes: seq<nat>, i: nat)
    requires Sum(sizes) == |tasks|
  {
    && |chunks| == |sizes|
    && (forall x :: 0 <= x < i && x < |sizes| ==> chunks[x] == Weight(tasks, sizes, x) < UINT)
    && (forall x :: i <= x < |chunks| ==> chunks[x] == 0)
  }

  lemma WeighedNext(chunks: seq<nat>, tasks: seq<nat>, sizes: seq<nat>, i: nat)
    requires Sum(sizes) == |tasks| && Sum(tasks) < UINT && Weighed(chunks, tasks, sizes, i) && i < |sizes|
    ensures chunks[i] == 0 && Off(sizes, i + 1) == Off(sizes, i) + sizes[i] <= |tasks|
    ensures Weighed(chunks[i := Sum(tasks[Off(sizes, i)..Off(sizes, i + 1)])], tasks, sizes, i + 1)
  {
    hide Sum, Off;
    OffNext(sizes, i);
    OffMonotone(sizes, i + 1, i + 1);
    SumPrefix(tasks, Off(sizes, i), Off(sizes, i + 1));
  }

  /** The inner loop of compute_chunks: the weights of size tasks from place o on are added to chunk i. */
  method AddTasks(tasks: array<nat>, chunks: array<nat>, i: nat, o: nat, size: nat) returns (k: nat)
    requires chunks != tasks && i < chunks.Length && o + size <= tasks.Length && chunks[i] == 0
    modifies chunks
    ensures k == o + size && chunks[..] == old(chunks[..])[i := Sum(tasks[o..o + size])]
  {
    ghost var s := tasks[..];
    k := o;
    var j := 0;
    assert tasks[o..o] == [];
    while j < size
      invariant 0 <= j <= size && k == o + j
      invariant chunks[..] == old(chunks[..])[i := Sum(tasks[o..k])]
    {
      SumNext(tasks[o..k + 1], k - o);
      assert tasks[o..k + 1][..k - o] == tasks[o..k] && tasks[o..k + 1][..k - o + 1] == tasks[o..k + 1];
      chunks[i] := chunks[i] + tasks[k];
      k := k + 1;
      j := j + 1;
    }
  }

  /** compute_chunks. */
  method ComputeChunks(tasks: array<nat>, chunkSizes: array<nat>) returns (chunks: array<nat>)
    requires Sum(chunkSizes[..]) == tasks.Length && Sum(tasks[..]) < UINT
    ensures fresh(chunks) && chunks.Length == chunkSizes.Length
    ensures forall k :: 0 <= k < chunks.Length ==> chunks[k] == Weight(tasks[..], chunkSizes[..], k) < UINT
  {
    ghost var s, z := tasks[..], chunkSizes[..];
    chunks := new nat[chunkSizes.Length](_ => 0);
    var i, k := 0, 0;
    assert z[..0] == [];
    assert Weighed(chunks[..], s, z, 0) && Off(z, 0) == 0;
    hide Weighed, Sum, Off;
    while i < chunkSizes.Length
      invariant 0 <= i <= chunkSizes.Length && k == Off(z, i) && Weighed(chunks[..], s, z, i)
    {
      WeighedNext(chunks[..], s, z, i);
      assert s[k..k + z[i]] == tasks[k..k + z[i]];
      k := AddTasks(tasks, chunks, i, k, chunkSizes[i]);
      i := i + 1;
    }
    AllWeighed(chunks[..], s, z);
  }

  lemma AllWeighed(chunks: seq<nat>, tasks: seq<nat>, sizes: seq<nat>)
    requires Sum(sizes) == |tasks| && Weighed(chunks, tasks, sizes, |sizes|)
    ensures |chunks| == |sizes| && forall k :: 0 <= k < |chunks| ==> chunks[k] == Weight(tasks, sizes, k) < UINT
  {
  }

  // The greedy assignment.

  /** The first of the least loaded threads. */
  function Least(load: seq<nat>): (t: nat)
    requires load != []
    ensures t < |load| && forall u :: 0 <= u < |load| ==> load[t] <= load[u]
    ensures forall u :: 0 <= u < t ==> load[t] < load[u]
  {
    if |load| == 1 then 0
    else
      var t := Least(load[..|load| - 1]);
      if load[|load| - 1] < load[t] then |load| - 1 else t
  }

  function Zeros(m: nat): (z: seq<nat>)
    ensures |z| == m && forall t :: 0 <= t < m ==> z[t] == 0
  {
    seq(m, _ => 0)
  }

  /** The loads of m threads when each job goes to the least loaded one. */
  function Greedy(jobs: seq<nat>, m: nat): (load: seq<nat>)
    requires m > 0
    ensures |load| == m
  {
    if jobs == [] then Zeros(m)
    else
      var load := Greedy(jobs[..|jobs| - 1], m);
      var t := Least(load);
      load[t := load[t] + jobs[|jobs| - 1]]
  }

  lemma {:induction false} SumUpdate(s: seq<nat>, t: nat, x: nat)
    requires t < |s|
    ensures Sum(s[t := x]) == Sum(s) - s[t] + x
  {
    var n := |s| - 1;
    if t == n {
      assert s[t := x][..n] == s[..n];
    } else {
      assert s[t := x][..n] == s[..n][t := x];
      SumUpdate(s[..n], t, x);
    }
  }

  lemma {:induction false} SumAtLeast(s: seq<nat>, x: nat)
    requires forall t :: 0 <= t < |s| ==> x <= s[t]
    ensures Sum(s) >= |s| * x
  {
    if s != [] {
      SumAtLeast(s[..|s| - 1], x);
      assert |s| * x == (|s| - 1) * x + x;
    } else {
      assert |s| * x == 0;
    }
  }

  lemma {:induction false} SumZeros(m: nat)
    ensures Sum(Zeros(m)) == 0
  {
    if m > 0 {
      SumZeros(m - 1);
      assert Zeros(m)[..m - 1] == Zeros(m - 1);
    }
  }

  /** The loads add up to the jobs. */
  lemma {:induction false} GreedyTotal(jobs: seq<nat>, m: nat)
    requires m > 0
    ensures Sum(Greedy(jobs, m)) == Sum(jobs)
  {
    if jobs == [] {
      SumZeros(m);
    } else {
      var load := Greedy(jobs[..|jobs| - 1], m);
      GreedyTotal(jobs[..|jobs| - 1], m);
      SumUpdate(load, Least(load), load[Least(load)] + jobs[|jobs| - 1]);
    }
  }

  /** No thread is loaded more than the average by more than a job: with every job at most w, m times the load is at most
      the total and m - 1 times w. */
  lemma {:induction false} GreedyBound(jobs: seq<nat>, m: nat, w: nat, t: nat)
    requires m > 0 && t < m && forall i :: 0 <= i < |jobs| ==> jobs[i] <= w
    ensures m * Greedy(jobs, m)[t] <= Sum(jobs) + (m - 1) * w
  {
    hide Greedy, Sum;
    if jobs == [] {
      GreedyNone(m, t);
      MulNonNegative(m - 1, w);
    } else {
      var n := |jobs| - 1;
      var load := Greedy(jobs[..n], m);
      GreedyBound(jobs[..n], m, w, t);
      GreedyOne(jobs, m, t);
      if t == Least(load) {
        GreedyTotal(jobs[..n], m);
        SumAtLeast(load, load[t]);
        LeastPlus(m, load[t], jobs[n], Sum(load), w);
      }
    }
  }

  lemma GreedyNone(m: nat, t: nat)
    requires m > 0 && t < m
    ensures m * Greedy([], m)[t] == 0 && Sum([]) == 0
  {
  }

  lemma GreedyOne(jobs: seq<nat>, m: nat, t: nat)
    requires m > 0 && t < m && jobs != []
    ensures var n := |jobs| - 1;
            var load := Greedy(jobs[..n], m);
            Greedy(jobs, m)[t] == load[t] + (if t == Least(load) then jobs[n] else 0) && Sum(jobs) == Sum(jobs[..n]) + jobs[n]
  {
  }

  lemma LeastPlus(m: nat, l: nat, x: nat, total: nat, w: nat)
    requires m > 0 && total >= m * l && x <= w
    ensures m * (l + x) <= total + x + (m - 1) * w
  {
    assert m * (l + x) == m * l + m * x;
    assert m * x == (m - 1) * x + x;
    MulMonotone(x, w, m - 1);
    assert x * (m - 1) == (m - 1) * x && w * (m - 1) == (m - 1) * w;
  }

  // The load of a thread, by its tasks.

  /** The weight of the tasks that are mapped to thread t. */
  function OnThread(tasks: seq<nat>, map_: seq<nat>, t: nat): nat
    requires |tasks| == |map_|
  {
    if tasks == [] then 0
    else
      var n := |tasks| - 1;
      OnThread(tasks[..n], map_[..n], t) + if map_[n] == t then tasks[n] else 0
  }

  lemma {:induction false} OnThreadAppend(a: seq<nat>, b: seq<nat>, p: seq<nat>, q: seq<nat>, t: nat)
    requires |a| == |p| && |b| == |q|
    ensures OnThread(a + b, p + q, t) == OnThread(a, p, t) + OnThread(b, q, t)
  {
    if b == [] {
      assert a + b == a && p + q == p;
    } else {
      var n := |b| - 1;
      assert (a + b)[..|a| + n] == a + b[..n] && (p + q)[..|a| + n] == p + q[..n];
      OnThreadAppend(a, b[..n], p, q[..n], t);
    }
  }

  lemma OnThreadParts(a: seq<nat>, p: seq<nat>, o: nat, e: nat, t: nat)
    requires |a| == |p| && o <= e <= |a|
    ensures OnThread(a, p, t) == OnThread(a[..o], p[..o], t) + OnThread(a[o..e], p[o..e], t) + OnThread(a[e..], p[e..], t)
  {
    hide OnThread;
    OnThreadAppend(a[..o], a[o..e], p[..o], p[o..e], t);
    OnThreadAppend(a[..o] + a[o..e], a[e..], p[..o] + p[o..e], p[e..], t);
    assert a == a[..o] + a[o..e] + a[e..] && p == p[..o] + p[o..e] + p[e..];
  }

  /** Mapping a stretch that did not count so far to thread u, with its weights. */
  lemma DealStretch(masked: seq<nat>, p: seq<nat>, tasks: seq<nat>, q: seq<nat>, o: nat, e: nat, u: nat, t: nat)
    requires |masked| == |p| == |tasks| == |q| && o <= e <= |tasks|
    requires forall x :: o <= x < e ==> masked[x] == 0 && q[x] == u
    requires q[..o] == p[..o] && q[e..] == p[e..]
    ensures OnThread(masked[..o] + tasks[o..e] + masked[e..], q, t) ==
            OnThread(masked, p, t) + if t == u then Sum(tasks[o..e]) else 0
  {
    hide OnThread, Sum;
    var r := masked[..o] + tasks[o..e] + masked[e..];
    OnThreadParts(masked, p, o, e, t);
    OnThreadParts(r, q, o, e, t);
    assert r[..o] == masked[..o] && r[o..e] == tasks[o..e] && r[e..] == masked[e..];
    AllZero(masked[o..e], p[o..e], t);
    AllOne(tasks[o..e], q[o..e], u, t);
  }

  lemma {:induction false} AllZero(a: seq<nat>, p: seq<nat>, t: nat)
    requires |a| == |p| && forall x :: 0 <= x < |a| ==> a[x] == 0
    ensures OnThread(a, p, t) == 0
  {
    if a != [] { AllZero(a[..|a| - 1], p[..|a| - 1], t); }
  }

  lemma {:induction false} AllOne(a: seq<nat>, p: seq<nat>, u: nat, t: nat)
    requires |a| == |p| && forall x :: 0 <= x < |a| ==> p[x] == u
    ensures OnThread(a, p, t) == if t == u then Sum(a) else 0
  {
    if a != [] { AllOne(a[..|a| - 1], p[..|a| - 1], u, t); }
  }

  /** The threads' loads add up to the total. */
  lemma {:induction false} OnThreadsTotal(tasks: seq<nat>, p: seq<nat>, m: nat, loads: seq<nat>)
    requires |tasks| == |p| && |loads| == m && (forall x :: 0 <= x < |p| ==> p[x] < m)
    requires forall t :: 0 <= t < m ==> loads[t] == OnThread(tasks, p, t)
    ensures Sum(loads) == Sum(tasks)
    decreases |tasks|
  {
    if tasks == [] {
      assert loads == Zeros(m);
      SumZeros(m);
    } else {
      var n := |tasks| - 1;
      var before := loads[p[n] := OnThread(tasks[..n], p[..n], p[n])];
      OnThreadsTotal(tasks[..n], p[..n], m, before);
      SumUpdate(loads, p[n], before[p[n]]);
    }
  }

  // binlpt_balance.

  /** The chunks from place i on have been dealt: their tasks count with their weights, the others not yet. */
  ghost predicate Counted(masked: seq<nat>, tasks: seq<nat>, sizes: seq<nat>, sortmap: seq<nat>, i: nat) {
    && |masked| == |tasks| == Sum(sizes) && |sortmap| >= |sizes|
    && (forall j :: 0 <= j < |sizes| ==> sortmap[j] < |sizes|)
    && (forall j, x {:trigger InChunk(sizes, sortmap[j], x)} ::
          0 <= j < |sizes| && 0 <= x < |tasks| && InChunk(sizes, sortmap[j], x) ==>
            masked[x] == if j >= i then tasks[x] else 0)
  }

  predicate InChunk(sizes: seq<nat>, k: nat, x: int)
    requires k < |sizes|
  {
    Off(sizes, k) <= x < Off(sizes, k + 1)
  }

  lemma ChunksApart(sizes: seq<nat>, j: nat, k: nat, x: nat)
    requires j < |sizes| && k < |sizes| && InChunk(sizes, j, x) && InChunk(sizes, k, x)
    ensures j == k
  {
    if j < k { OffMonotone(sizes, j + 1, k); } else if k < j { OffMonotone(sizes, k + 1, j); }
  }

  /** The chunk at place i is dealt. */
  lemma CountChunk(masked: seq<nat>, tasks: seq<nat>, sizes: seq<nat>, sortmap: seq<nat>, i: nat)
    requires i < |sizes| && Counted(masked, tasks, sizes, sortmap, i + 1) && NoRepeats(sortmap[..|sizes|])
    ensures Off(sizes, sortmap[i]) <= Off(sizes, sortmap[i] + 1) <= |tasks| == |masked|
    ensures var o, e := Off(sizes, sortmap[i]), Off(sizes, sortmap[i] + 1);
            && (forall x :: o <= x < e ==> masked[x] == 0)
            && Counted(masked[..o] + tasks[o..e] + masked[e..], tasks, sizes, sortmap, i)
  {
    var k := sortmap[i];
    OffMonotone(sizes, k, k + 1);
    OffMonotone(sizes, k + 1, k + 1);
    var o, e := Off(sizes, k), Off(sizes, k + 1);
    forall x | o <= x < e ensures masked[x] == 0 { assert InChunk(sizes, sortmap[i], x); }
    var r := masked[..o] + tasks[o..e] + masked[e..];
    var q := sortmap[..|sizes|];
    forall j: nat, x: nat | j < |sizes| && x < |tasks| && InChunk(sizes, sortmap[j], x)
      ensures r[x] == if j >= i then tasks[x] else 0
    {
      if InChunk(sizes, k, x) {
        ChunksApart(sizes, sortmap[j], k, x);
        assert q[j] == q[i];
      } else {
        assert j != i;
        assert r[x] == masked[x];
      }
    }
  }

  /** A chunk of no weight counts as dealt. */
  lemma SkipChunk(masked: seq<nat>, tasks: seq<nat>, sizes: seq<nat>, sortmap: seq<nat>, i: nat)
    requires i < |sizes| && Counted(masked, tasks, sizes, sortmap, i + 1) && Weight(tasks, sizes, sortmap[i]) == 0
    ensures Counted(masked, tasks, sizes, sortmap, i)
  {
    var k := sortmap[i];
    OffMonotone(sizes, k, k + 1);
    OffMonotone(sizes, k + 1, k + 1);
    var o, e := Off(sizes, k), Off(sizes, k + 1);
    SumZeroAll(tasks[o..e]);
    forall x: nat | x < |tasks| && InChunk(sizes, k, x) ensures tasks[x] == 0 {
      assert tasks[x] == tasks[o..e][x - o];
    }
    forall j: nat, x: nat | j < |sizes| && x < |tasks| && InChunk(sizes, sortmap[j], x)
      ensures masked[x] == if j >= i then tasks[x] else 0
    {
    }
  }

  lemma {:induction false} SumZeroAll(s: seq<nat>)
    requires Sum(s) == 0
    ensures forall x :: 0 <= x < |s| ==> s[x] == 0
  {
    if s != [] { SumZeroAll(s[..|s| - 1]); }
  }

  /** When all chunks have been dealt every task counts. */
  lemma CountedAll(masked: seq<nat>, tasks: seq<nat>, sizes: seq<nat>, sortmap: seq<nat>, a: seq<nat>, b: seq<nat>)
    requires Counted(masked, tasks, sizes, sortmap, 0) && Tracks(a, sortmap, b) && |a| == |sizes|
    ensures masked == tasks
  {
    forall x: nat | x < |tasks| ensures masked[x] == tasks[x] {
      var k := ChunkOf(sizes, x);
      var j := TracksAll(a, sortmap, b, k);
      assert InChunk(sizes, sortmap[j], x);
    }
  }

  lemma {:induction false} ChunkOf(sizes: seq<nat>, x: nat) returns (k: nat)
    requires x < Sum(sizes)
    ensures k < |sizes| && InChunk(sizes, k, x)
  {
    var n := |sizes| - 1;
    if Sum(sizes[..n]) <= x {
      k := n;
      assert sizes[..n + 1] == sizes;
    } else {
      k := ChunkOf(sizes[..n], x);
      assert sizes[..n][..k] == sizes[..k] && sizes[..n][..k + 1] == sizes[..k + 1];
    }
  }

  /** The first k elements from the heavy end, heaviest first. */
  function Heaviest(a: seq<nat>, k: nat): (r: seq<nat>)
    requires k <= |a|
    ensures |r| == k && forall x :: 0 <= x < k ==> r[x] == a[|a| - 1 - x]
  {
    seq(k, x requires 0 <= x < k => a[|a| - 1 - x])
  }

  lemma GreedyNext(a: seq<nat>, k: nat, m: nat)
    requires k < |a| && m > 0
    ensures var load := Greedy(Heaviest(a, k), m);
            Greedy(Heaviest(a, k + 1), m) == load[Least(load) := load[Least(load)] + a[|a| - 1 - k]]
  {
    assert Heaviest(a, k + 1)[..k] == Heaviest(a, k);
  }

  /** Every thread's load is the weight of its tasks. */
  ghost predicate LoadsOk(masked: seq<nat>, taskmap: seq<nat>, load: seq<nat>)
    requires |masked| == |taskmap|
  {
    && (forall x :: 0 <= x < |taskmap| ==> taskmap[x] < |load|)
    && (forall t :: 0 <= t < |load| ==> load[t] == OnThread(masked, taskmap, t))
  }

  /** q is p with the size places from off on mapped to u. */
  ghost predicate Mapped(p: seq<nat>, q: seq<nat>, off: nat, size: nat, u: nat) {
    |q| == |p| && forall x :: 0 <= x < |p| ==> q[x] == if off <= x < off + size then u else p[x]
  }

  /** The inner loop: the tasks of a chunk are mapped to a thread. */
  method MapChunk(taskmap: array<nat>, off: nat, size: nat, tid: nat)
    requires off + size <= taskmap.Length
    modifies taskmap
    ensures Mapped(old(taskmap[..]), taskmap[..], off, size, tid)
  {
    var j := 0;
    while j < size
      invariant 0 <= j <= size && Mapped(old(taskmap[..]), taskmap[..], off, j, tid)
    {
      taskmap[off + j] := tid;
      j := j + 1;
    }
  }

  lemma DealChunk(masked: seq<nat>, tasks: seq<nat>, o: nat, e: nat, p: seq<nat>, q: seq<nat>, load: seq<nat>, u: nat)
    requires |masked| == |p| == |tasks| && o <= e <= |tasks| && u < |load| && LoadsOk(masked, p, load)
    requires (forall x :: o <= x < e ==> masked[x] == 0) && Mapped(p, q, o, e - o, u)
    ensures |q| == |p| && LoadsOk(masked[..o] + tasks[o..e] + masked[e..], q, load[u := load[u] + Sum(tasks[o..e])])
  {
    assert q[..o] == p[..o] && q[e..] == p[e..];
    hide OnThread, Sum;
    forall t: nat | t < |load| ensures OnThread(masked[..o] + tasks[o..e] + masked[e..], q, t) ==
                                       load[u := load[u] + Sum(tasks[o..e])][t] {
      DealStretch(masked, p, tasks, q, o, e, u, t);
    }
  }

  function Weights(tasks: seq<nat>, sizes: seq<nat>): (w: seq<nat>)
    requires Sum(sizes) == |tasks|
    ensures |w| == |sizes| && forall k :: 0 <= k < |w| ==> w[k] == Weight(tasks, sizes, k)
  {
    seq(|sizes|, k requires 0 <= k < |sizes| => Weight(tasks, sizes, k))
  }

  /** The state of the main loop of binlpt_balance before it takes the chunk at place i - 1. */
  ghost predicate Dealing(tasks: seq<nat>, sizes: seq<nat>, chunks: seq<nat>, sortmap: seq<nat>, masked: seq<nat>,
                          taskmap: seq<nat>, load: seq<nat>, i: nat) {
    && load != [] && i <= |sizes| == |chunks| && |taskmap| == |tasks| == Sum(sizes)
    && Tracks(chunks, sortmap, Weights(tasks, sizes))
    && Counted(masked, tasks, sizes, sortmap, i)
    && LoadsOk(masked, taskmap, load)
    && load == Greedy(Heaviest(chunks, |chunks| - i), |load|)
  }

  lemma DealingSkip(tasks: seq<nat>, sizes: seq<nat>, chunks: seq<nat>, sortmap: seq<nat>, masked: seq<nat>,
                    taskmap: seq<nat>, load: seq<nat>, i: nat)
    requires Sum(sizes) == |tasks| && i > 0 && Dealing(tasks, sizes, chunks, sortmap, masked, taskmap, load, i)
    requires chunks[i - 1] == 0
    ensures Dealing(tasks, sizes, chunks, sortmap, masked, taskmap, load, i - 1)
  {
    hide Counted, LoadsOk, Tracks, Greedy, Heaviest, Weights, Least, Weight, Sum;
    ChunkWeight(tasks, sizes, chunks, sortmap, i - 1);
    SkipChunk(masked, tasks, sizes, sortmap, i - 1);
    GreedyNext(chunks, |chunks| - i, |load|);
    SameLoad(load, Least(load));
  }

  lemma SameLoad(load: seq<nat>, t: nat)
    requires t < |load|
    ensures load[t := load[t]] == load && load[t := load[t] + 0] == load
  {
  }

  lemma ChunkWeight(tasks: seq<nat>, sizes: seq<nat>, chunks: seq<nat>, sortmap: seq<nat>, j: nat)
    requires Sum(sizes) == |tasks| && Tracks(chunks, sortmap, Weights(tasks, sizes)) && j < |chunks|
    ensures |sortmap| >= |chunks| == |sizes| && sortmap[j] < |sizes| && chunks[j] == Weight(tasks, sizes, sortmap[j])
    ensures NoRepeats(sortmap[..|sizes|])
  {
  }

  lemma DealingTake(tasks: seq<nat>, sizes: seq<nat>, chunks: seq<nat>, sortmap: seq<nat>, masked: seq<nat>,
                    taskmap: seq<nat>, load: seq<nat>, i: nat, taskmap2: seq<nat>) returns (masked2: seq<nat>)
    requires Sum(sizes) == |tasks| && 0 < i <= |chunks| && Dealing(tasks, sizes, chunks, sortmap, masked, taskmap, load, i)
    requires sortmap[i - 1] < |sizes|
    requires Mapped(taskmap, taskmap2, Off(sizes, sortmap[i - 1]), sizes[sortmap[i - 1]], Least(load))
    ensures var t := Least(load);
            Dealing(tasks, sizes, chunks, sortmap, masked2, taskmap2, load[t := load[t] + chunks[i - 1]], i - 1)
  {
    hide Counted, LoadsOk, Tracks, Greedy, Heaviest, Weights, Least, Sum, Off, Mapped;
    ChunkWeight(tasks, sizes, chunks, sortmap, i - 1);
    var k, t := sortmap[i - 1], Least(load);
    CountChunk(masked, tasks, sizes, sortmap, i - 1);
    OffNext(sizes, k);
    var o, e := Off(sizes, k), Off(sizes, k + 1);
    masked2 := masked[..o] + tasks[o..e] + masked[e..];
    GreedyNext(chunks, |chunks| - i, |load|);
    assert chunks[i - 1] == Sum(tasks[o..e]);
    DealChunk(masked, tasks, o, e, taskmap, taskmap2, load, t);
  }

  // Which thread each chunk is on.

  /** u is the first of the m threads on which the jobs dealt so far weigh least; to says where each of them went. */
  predicate FirstLeast(jobs: seq<nat>, to: seq<nat>, m: nat, u: nat)
    requires |jobs| == |to|
  {
    && u < m && (forall t: nat :: t < m ==> OnThread(jobs, to, u) <= OnThread(jobs, to, t))
    && (forall t: nat :: t < u ==> OnThread(jobs, to, u) < OnThread(jobs, to, t))
  }

  /** The tasks of the chunks dealt so far, from the heavy end down to place i, are where to says; all others are on thread 0. */
  ghost predicate Placed(sizes: seq<nat>, sortmap: seq<nat>, taskmap: seq<nat>, to: seq<nat>, i: nat) {
    && i <= |sizes| <= |sortmap| && |to| == |sizes| - i && (forall p :: 0 <= p < |sizes| ==> sortmap[p] < |sizes|)
    && (forall p: nat, x: nat {:trigger InChunk(sizes, sortmap[p], x)} :: p < |sizes| && x < |taskmap| && InChunk(sizes, sortmap[p], x) ==>
          taskmap[x] == if p >= i then to[|sizes| - 1 - p] else 0)
  }

  /** The j-th heaviest chunk went to the first thread on which the heavier ones weigh least, or to thread 0 if it weighs nothing. */
  predicate ChosenAt(asc: seq<nat>, to: seq<nat>, m: nat, j: nat)
    requires j < |to| <= |asc|
  {
    if asc[|asc| - 1 - j] == 0 then to[j] == 0 else FirstLeast(Heaviest(asc, j), to[..j], m, to[j])
  }

  ghost predicate Chosen(asc: seq<nat>, to: seq<nat>, m: nat) {
    |to| <= |asc| && forall j: nat :: j < |to| ==> ChosenAt(asc, to, m, j)
  }

  ghost predicate LoadsAre(asc: seq<nat>, to: seq<nat>, load: seq<nat>) {
    |to| <= |asc| && forall t: nat :: t < |load| ==> LoadIs(asc, to, load, t)
  }

  predicate LoadIs(asc: seq<nat>, to: seq<nat>, load: seq<nat>, t: nat)
    requires |to| <= |asc| && t < |load|
  {
    load[t] == OnThread(Heaviest(asc, |to|), to, t)
  }

  lemma ChosenNext(asc: seq<nat>, to: seq<nat>, load: seq<nat>, u: nat)
    requires |to| < |asc| && Chosen(asc, to, |load|) && LoadsAre(asc, to, load) && u < |load|
    requires var w := asc[|asc| - 1 - |to|]; if w == 0 then u == 0 else u == Least(load)
    ensures Chosen(asc, to + [u], |load|)
    ensures LoadsAre(asc, to + [u], load[u := load[u] + asc[|asc| - 1 - |to|]])
  {
    hide ChosenAt, LoadsAre, Least;
    forall j: nat | j < |to + [u]| ensures ChosenAt(asc, to + [u], |load|, j) {
      if j < |to| {
        ChosenBefore(asc, to, |load|, j, u);
      } else {
        ChosenLast(asc, to, load, u);
      }
    }
    MoreLoad(asc, to, load, u);
  }

  lemma ChosenBefore(asc: seq<nat>, to: seq<nat>, m: nat, j: nat, u: nat)
    requires j < |to| < |asc| && ChosenAt(asc, to, m, j)
    ensures ChosenAt(asc, to + [u], m, j)
  {
    hide FirstLeast, Heaviest;
    assert (to + [u])[..j] == to[..j];
  }

  lemma ChosenLast(asc: seq<nat>, to: seq<nat>, load: seq<nat>, u: nat)
    requires |to| < |asc| && LoadsAre(asc, to, load) && u < |load|
    requires var w := asc[|asc| - 1 - |to|]; if w == 0 then u == 0 else u == Least(load)
    ensures ChosenAt(asc, to + [u], |load|, |to|)
  {
    hide FirstLeast, Heaviest, LoadsAre;
    assert (to + [u])[..|to|] == to;
    if asc[|asc| - 1 - |to|] != 0 { LeastIsFirst(asc, to, load); }
  }

  lemma LeastIsFirst(asc: seq<nat>, to: seq<nat>, load: seq<nat>)
    requires load != [] && LoadsAre(asc, to, load)
    ensures FirstLeast(Heaviest(asc, |to|), to, |load|, Least(load))
  {
    hide OnThread, Heaviest;
    forall t: nat | t < |load| ensures load[t] == OnThread(Heaviest(asc, |to|), to, t) {
      assert LoadIs(asc, to, load, t);
    }
  }

  lemma MoreLoad(asc: seq<nat>, to: seq<nat>, load: seq<nat>, u: nat)
    requires |to| < |asc| && LoadsAre(asc, to, load) && u < |load|
    ensures LoadsAre(asc, to + [u], load[u := load[u] + asc[|asc| - 1 - |to|]])
  {
    hide OnThread, Heaviest;
    var load2 := load[u := load[u] + asc[|asc| - 1 - |to|]];
    forall t: nat | t < |load2| ensures LoadIs(asc, to + [u], load2, t) {
      assert LoadIs(asc, to, load, t);
      OneMoreJob(asc, to, u, t);
    }
  }

  lemma OneMoreJob(asc: seq<nat>, to: seq<nat>, u: nat, t: nat)
    requires |to| < |asc|
    ensures OnThread(Heaviest(asc, |to| + 1), to + [u], t) ==
            OnThread(Heaviest(asc, |to|), to, t) + if t == u then asc[|asc| - 1 - |to|] else 0
  {
    assert Heaviest(asc, |to| + 1)[..|to|] == Heaviest(asc, |to|) && (to + [u])[..|to|] == to;
  }

  lemma PlacedSkip(sizes: seq<nat>, sortmap: seq<nat>, taskmap: seq<nat>, to: seq<nat>, i: nat)
    requires 0 < i && Placed(sizes, sortmap, taskmap, to, i)
    ensures Placed(sizes, sortmap, taskmap, to + [0], i - 1)
  {
  }

  lemma PlacedTake(sizes: seq<nat>, sortmap: seq<nat>, taskmap: seq<nat>, taskmap2: seq<nat>, to: seq<nat>, i: nat, u: nat)
    requires 0 < i && Placed(sizes, sortmap, taskmap, to, i) && NoRepeats(sortmap[..|sizes|])
    requires Mapped(taskmap, taskmap2, Off(sizes, sortmap[i - 1]), sizes[sortmap[i - 1]], u)
    ensures Placed(sizes, sortmap, taskmap2, to + [u], i - 1)
  {
    OffNext(sizes, sortmap[i - 1]);
    hide Off;
    var s := sortmap[..|sizes|];
    forall p: nat, x: nat | p < |sizes| && x < |taskmap2| && InChunk(sizes, sortmap[p], x)
      ensures taskmap2[x] == if p >= i - 1 then (to + [u])[|sizes| - 1 - p] else 0
    {
      if InChunk(sizes, sortmap[i - 1], x) {
        ChunksApart(sizes, sortmap[p], sortmap[i - 1], x);
        assert s[p] == s[i - 1];
      }
    }
  }

  lemma PlacedNone(sizes: seq<nat>, sortmap: seq<nat>, n: nat, asc: seq<nat>, m: nat)
    requires |sizes| <= |sortmap| && |asc| == |sizes| && forall p :: 0 <= p < |sizes| ==> sortmap[p] < |sizes|
    ensures Placed(sizes, sortmap, Zeros(n), [], |sizes|) && Chosen(asc, [], m) && LoadsAre(asc, [], Zeros(m))
  {
    assert Heaviest(asc, 0) == [];
  }

  /** Before the chunk at place i - 1. */
  ghost predicate Assigning(sizes: seq<nat>, asc: seq<nat>, sortmap: seq<nat>, taskmap: seq<nat>, to: seq<nat>, load: seq<nat>,
                            m: nat, i: nat) {
    Placed(sizes, sortmap, taskmap, to, i) && Chosen(asc, to, m) && LoadsAre(asc, to, load) && |load| == m && |asc| == |sizes|
  }

  lemma AssignParts(sizes: seq<nat>, asc: seq<nat>, sortmap: seq<nat>, taskmap: seq<nat>, to: seq<nat>, load: seq<nat>, m: nat, i: nat)
    requires |load| == m && |asc| == |sizes|
    ensures Assigning(sizes, asc, sortmap, taskmap, to, load, m, i) <==>
            Placed(sizes, sortmap, taskmap, to, i) && Chosen(asc, to, m) && LoadsAre(asc, to, load)
  {
    hide Placed, Chosen, LoadsAre;
  }

  lemma AssignSkip(sizes: seq<nat>, asc: seq<nat>, sortmap: seq<nat>, taskmap: seq<nat>, to: seq<nat>, load: seq<nat>, m: nat, i: nat)
    requires 0 < i && m > 0 && Assigning(sizes, asc, sortmap, taskmap, to, load, m, i) && i <= |asc| && asc[i - 1] == 0
    ensures Assigning(sizes, asc, sortmap, taskmap, to + [0], load, m, i - 1)
  {
    PlacedSkip(sizes, sortmap, taskmap, to, i);
    hide Placed;
    ChosenNext(asc, to, load, 0);
    SameLoad(load, 0);
    hide Chosen, LoadsAre;
  }

  lemma AssignTake(sizes: seq<nat>, asc: seq<nat>, sortmap: seq<nat>, taskmap: seq<nat>, taskmap2: seq<nat>, to: seq<nat>, load: seq<nat>,
                   m: nat, i: nat)
    requires 0 < i && m > 0 && Assigning(sizes, asc, sortmap, taskmap, to, load, m, i) && i <= |asc| && asc[i - 1] != 0
    requires NoRepeats(sortmap[..|sizes|])
    requires Mapped(taskmap, taskmap2, Off(sizes, sortmap[i - 1]), sizes[sortmap[i - 1]], Least(load))
    ensures Assigning(sizes, asc, sortmap, taskmap2, to + [Least(load)], load[Least(load) := load[Least(load)] + asc[i - 1]], m, i - 1)
  {
    PlacedTake(sizes, sortmap, taskmap, taskmap2, to, i, Least(load));
    hide Placed, Mapped, Off, Least;
    ChosenNext(asc, to, load, Least(load));
    hide Chosen, LoadsAre;
  }

  lemma LeastIs(load: seq<nat>, t: nat)
    requires t < |load| && (forall j :: 0 <= j < |load| ==> load[t] <= load[j]) && forall j :: 0 <= j < t ==> load[t] < load[j]
    ensures Least(load) == t
  {
    var u := Least(load);
    assert load[t] <= load[u] && load[u] <= load[t];
  }

  lemma DealingStarts(tasks: seq<nat>, sizes: seq<nat>, chunks: seq<nat>, sortmap: seq<nat>, m: nat)
    requires m > 0 && Sum(sizes) == |tasks| && |chunks| == |sizes| && Tracks(chunks, sortmap, Weights(tasks, sizes))
    ensures Dealing(tasks, sizes, chunks, sortmap, Zeros(|tasks|), Zeros(|tasks|), Zeros(m), |sizes|)
  {
    forall t: nat | t < m ensures OnThread(Zeros(|tasks|), Zeros(|tasks|), t) == 0 {
      AllZero(Zeros(|tasks|), Zeros(|tasks|), t);
    }
  }

  /** binlpt_balance: chunks of consecutive tasks, dealt heaviest first to the first of the least loaded threads. */
  method BinLptBalance(tasks: array<nat>, nchunks: nat, nthreads: nat, ghost largest: nat)
    returns (taskmap: array<nat>, ghost sizes: seq<nat>, ghost asc: seq<nat>, ghost sortmap: seq<nat>, ghost to: seq<nat>)
    requires 1 <= nchunks <= tasks.Length < UINT && nthreads > 0 && Sum(tasks[..]) < UINT && AtMost(tasks[..], largest)
    ensures fresh(taskmap) && taskmap.Length == tasks.Length && |sizes| == |asc| == nchunks
    ensures Chunking(tasks[..], sizes, largest) && EndRight(tasks[..], sizes, Sum(tasks[..]) / nchunks, nchunks)
    ensures Sorted(asc) && Tracks(asc, sortmap, Weights(tasks[..], sizes))
    ensures forall x :: 0 <= x < taskmap.Length ==> taskmap[x] < nthreads
    ensures forall t :: 0 <= t < nthreads ==>
              OnThread(tasks[..], taskmap[..], t) == Greedy(Heaviest(asc, nchunks), nthreads)[t]
    ensures Placed(sizes, sortmap, taskmap[..], to, 0) && Chosen(asc, to, nthreads)
  {
    hide Dealing, Chunking, Greedy, Least, Heaviest, Weights, Tracks, Sum, AtMost, Offsets, Placed, Chosen, LoadsAre, Assigning, EndRight;
    ghost var s := tasks[..];
    taskmap := new nat[tasks.Length](_ => 0);
    var load := new nat[nthreads](_ => 0);
    var chunkSizes, chunks, chunkOff, map_ := Prepare(tasks, nchunks, largest);
    sizes, asc, sortmap := chunkSizes[..], chunks[..], map_[..];
    ghost var masked := Zeros(|s|);
    DealingStarts(s, sizes, asc, sortmap, nthreads);
    assert taskmap[..] == Zeros(|s|) && load[..] == Zeros(nthreads);
    TracksPlaces(asc, sortmap, Weights(s, sizes));
    PlacedNone(sizes, sortmap, |s|, asc, nthreads);
    to := [];
    AssignParts(sizes, asc, sortmap, taskmap[..], to, load[..], nthreads, nchunks);
    var i := nchunks;
    while i > 0
      invariant i <= nchunks && Dealing(s, sizes, asc, sortmap, masked, taskmap[..], load[..], i)
      invariant chunkSizes[..] == sizes && chunks[..] == asc && map_[..] == sortmap && tasks[..] == s
      invariant Offsets(chunkOff[..], sizes)
      invariant Assigning(sizes, asc, sortmap, taskmap[..], to, load[..], nthreads, i)
      modifies taskmap, load
    {
      ghost var p: seq<nat>, l: seq<nat> := taskmap[..], load[..];
      if chunks[i - 1] == 0 {
        AssignSkip(sizes, asc, sortmap, p, to, l, nthreads, i);
        to := to + [0];
        DealingSkip(s, sizes, asc, sortmap, masked, taskmap[..], load[..], i);
      } else {
        masked := TakeChunk(s, taskmap, load, chunks, map_, chunkSizes, chunkOff, i, masked);
        AssignTake(sizes, asc, sortmap, p, taskmap[..], to, l, nthreads, i);
        to := to + [Least(l)];
      }
      i := i - 1;
    }
    DealingEnds(s, sizes, asc, sortmap, masked, taskmap[..], load[..]);
    AssignParts(sizes, asc, sortmap, taskmap[..], to, load[..], nthreads, 0);
  }

  /** The chunks, their weights in order, and their offsets. */
  method Prepare(tasks: array<nat>, nchunks: nat, ghost largest: nat)
    returns (chunkSizes: array<nat>, chunks: array<nat>, chunkOff: array<nat>, map_: array<nat>)
    requires 1 <= nchunks <= tasks.Length < UINT && Sum(tasks[..]) < UINT && AtMost(tasks[..], largest)
    ensures fresh(chunkSizes) && fresh(chunks) && fresh(chunkOff) && fresh(map_)
    ensures chunkSizes.Length == chunks.Length == chunkOff.Length == nchunks
    ensures Sum(chunkSizes[..]) == tasks.Length && Chunking(tasks[..], chunkSizes[..], largest)
    ensures EndRight(tasks[..], chunkSizes[..], Sum(tasks[..]) / nchunks, nchunks)
    ensures Offsets(chunkOff[..], chunkSizes[..])
    ensures Sorted(chunks[..]) && Tracks(chunks[..], map_[..], Weights(tasks[..], chunkSizes[..]))
  {
    map_ := new nat[tasks.Length];
    chunkSizes := ComputeChunkSizes(tasks, nchunks, largest);
    chunks := ComputeChunks(tasks, chunkSizes);
    chunkOff := CumulativeSum(chunkSizes);
    ghost var sizes := chunkSizes[..];
    assert forall k :: 0 <= k < nchunks ==> chunkSizes[..k] == sizes[..k];
    assert chunks[..] == Weights(tasks[..], sizes);
    Sort(chunks, map_);
  }

  lemma DealingEnds(tasks: seq<nat>, sizes: seq<nat>, chunks: seq<nat>, sortmap: seq<nat>, masked: seq<nat>,
                    taskmap: seq<nat>, load: seq<nat>)
    requires Sum(sizes) == |tasks| && Dealing(tasks, sizes, chunks, sortmap, masked, taskmap, load, 0)
    ensures |taskmap| == |tasks| && |load| > 0 && |chunks| == |sizes|
    ensures forall x :: 0 <= x < |taskmap| ==> taskmap[x] < |load|
    ensures forall t :: 0 <= t < |load| ==> OnThread(tasks, taskmap, t) == Greedy(Heaviest(chunks, |chunks|), |load|)[t]
  {
    CountedAll(masked, tasks, sizes, sortmap, chunks, Weights(tasks, sizes));
  }

  /** One chunk of some weight goes to the least loaded thread. */
  method TakeChunk(ghost s: seq<nat>, taskmap: array<nat>, load: array<nat>, chunks: array<nat>, map_: array<nat>,
                   chunkSizes: array<nat>, chunkOff: array<nat>, i: nat, ghost masked: seq<nat>)
    returns (ghost masked2: seq<nat>)
    requires taskmap != load && chunks != taskmap && chunks != load && map_ != taskmap && map_ != load
    requires chunkSizes != taskmap && chunkSizes != load && chunkOff != taskmap && chunkOff != load
    requires 0 < i <= chunks.Length == chunkSizes.Length == chunkOff.Length && Sum(chunkSizes[..]) == |s|
    requires Offsets(chunkOff[..], chunkSizes[..])
    requires Dealing(s, chunkSizes[..], chunks[..], map_[..], masked, taskmap[..], load[..], i)
    modifies taskmap, load
    ensures Dealing(s, chunkSizes[..], chunks[..], map_[..], masked2, taskmap[..], load[..], i - 1)
    ensures old(load[..]) != [] && i <= map_.Length && map_[i - 1] < chunkSizes.Length
    ensures var l := old(load[..]); var u, k := Least(l), map_[i - 1];
            && load[..] == l[u := l[u] + chunks[i - 1]]
            && Mapped(old(taskmap[..]), taskmap[..], Off(chunkSizes[..], k), chunkSizes[k], u)
  {
    hide Dealing, Weights, Least, Sum, Off, Mapped, Offsets;
    ghost var sizes, p: seq<nat>, l: seq<nat> := chunkSizes[..], taskmap[..], load[..];
    DealingFacts(s, sizes, chunks[..], map_[..], masked, p, l, i);
    OffsetAt(chunkOff[..], sizes, map_[i - 1]);
    var tid := LeastLoaded(load, load.Length);
    LeastIs(l, tid);
    var k := map_[i - 1];
    MapChunk(taskmap, chunkOff[k], chunkSizes[k], tid);
    masked2 := DealingTake(s, sizes, chunks[..], map_[..], masked, p, l, i, taskmap[..]);
    load[tid] := load[tid] + chunks[i - 1];
    assert load[..] == l[tid := l[tid] + chunks[i - 1]];
  }

  ghost predicate Offsets(offs: seq<nat>, sizes: seq<nat>) {
    |offs| == |sizes| && forall k :: 0 <= k < |sizes| ==> offs[k] == Off(sizes, k)
  }

  lemma OffsetAt(offs: seq<nat>, sizes: seq<nat>, k: nat)
    requires Offsets(offs, sizes) && k < |sizes|
    ensures k < |offs| && offs[k] == Off(sizes, k)
  {
  }

  lemma TracksPlaces(a: seq<nat>, m: seq<nat>, b: seq<nat>)
    requires Tracks(a, m, b)
    ensures |m| >= |a| == |b| && NoRepeats(m[..|a|]) && forall p :: 0 <= p < |a| ==> m[p] < |a|
  {
  }

  lemma DealingFacts(tasks: seq<nat>, sizes: seq<nat>, chunks: seq<nat>, sortmap: seq<nat>, masked: seq<nat>,
                     taskmap: seq<nat>, load: seq<nat>, i: nat)
    requires Sum(sizes) == |tasks| && 0 < i && Dealing(tasks, sizes, chunks, sortmap, masked, taskmap, load, i)
    ensures |taskmap| == |tasks| && |load| > 0 && i - 1 < |sortmap| && sortmap[i - 1] < |sizes|
    ensures var k := sortmap[i - 1]; Off(sizes, k) + sizes[k] <= |tasks|
  {
    var k := sortmap[i - 1];
    OffNext(sizes, k);
    OffMonotone(sizes, k + 1, k + 1);
  }

  /** The bound of BinLPT: with total T, m threads, c chunks and largest task M, m times the weight on any thread is at most
      T + (m - 1) (T / c + M), and the weights add up to T. */
  lemma BinLptBound(tasks: seq<nat>, sizes: seq<nat>, asc: seq<nat>, sortmap: seq<nat>, taskmap: seq<nat>, m: nat,
                    largest: nat, t: nat)
    requires Chunking(tasks, sizes, largest) && |asc| == |sizes| && Tracks(asc, sortmap, Weights(tasks, sizes))
    requires |taskmap| == |tasks| && t < m && forall x :: 0 <= x < |taskmap| ==> taskmap[x] < m
    requires forall u :: 0 <= u < m ==> OnThread(tasks, taskmap, u) == Greedy(Heaviest(asc, |asc|), m)[u]
    ensures m * OnThread(tasks, taskmap, t) <= Sum(tasks) + (m - 1) * (Sum(tasks) / |sizes| + largest)
    ensures Sum(Greedy(Heaviest(asc, |asc|), m)) == Sum(tasks)
  {
    hide Heaviest, Greedy, Tracks, Weights, OnThread, Sum;
    var jobs, w := Heaviest(asc, |asc|), Sum(tasks) / |sizes| + largest;
    OnThreadsTotal(tasks, taskmap, m, Greedy(jobs, m));
    GreedyTotal(jobs, m);
    DivMonotone(0, Sum(tasks), |sizes|);
    JobsBelow(tasks, sizes, asc, sortmap, largest, w);
    hide Chunking;
    GreedyBound(jobs, m, w, t);
  }

  lemma JobsBelow(tasks: seq<nat>, sizes: seq<nat>, asc: seq<nat>, sortmap: seq<nat>, largest: nat, w: nat)
    requires Chunking(tasks, sizes, largest) && |asc| == |sizes| && Tracks(asc, sortmap, Weights(tasks, sizes))
    requires w == Sum(tasks) / |sizes| + largest
    ensures forall x :: 0 <= x < |asc| ==> Heaviest(asc, |asc|)[x] <= w
  {
    hide Sum, Weight;
    forall x | 0 <= x < |asc| ensures Heaviest(asc, |asc|)[x] <= w {
      assert asc[|asc| - 1 - x] == Weights(tasks, sizes)[sortmap[|asc| - 1 - x]];
    }
  }
}
