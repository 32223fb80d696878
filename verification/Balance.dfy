/** The loop balancers: the sort they share, Smart Round-Robin, and bin packing followed by largest processing time
    first. */
module Balance {
  import opened Arithmetic
  import opened Sequences

  const UINT: nat := 0x1_0000_0000

  function Sum(s: seq<nat>): nat {
    if s == [] then 0 else Sum(s[..|s| - 1]) + s[|s| - 1]
  }

  lemma {:induction false} SumAppend(a: seq<nat>, b: seq<nat>)
    ensures Sum(a + b) == Sum(a) + Sum(b)
  {
    if b == [] {
      assert a + b == a;
    } else {
      var c := b[..|b| - 1];
      assert (a + b)[..|a + b| - 1] == a + c;
      SumAppend(a, c);
    }
  }

  lemma SumNext(s: seq<nat>, i: nat)
    requires i < |s|
    ensures Sum(s[..i + 1]) == Sum(s[..i]) + s[i]
  {
    assert s[..i + 1][..i] == s[..i];
  }

  lemma SumPrefix(s: seq<nat>, i: nat, j: nat)
    requires i <= j <= |s|
    ensures Sum(s[..i]) <= Sum(s[..j]) <= Sum(s)
    ensures Sum(s[..j]) == Sum(s[..i]) + Sum(s[i..j])
  {
    assert s[..j] == s[..i] + s[i..j];
    SumAppend(s[..i], s[i..j]);
    assert s == s[..j] + s[j..];
    SumAppend(s[..j], s[j..]);
  }

  // Sorting.

  predicate Sorted(s: seq<nat>) {
    forall i, j :: 0 <= i <= j < |s| ==> s[i] <= s[j]
  }

  /** map is a permutation of the positions, and the sequence a is the sequence b read through it. */
  ghost predicate Tracks(a: seq<nat>, map_: seq<nat>, b: seq<nat>) {
    && |map_| >= |a| == |b|
    && (forall i :: 0 <= i < |a| ==> map_[i] < |b| && a[i] == b[map_[i]])
    && NoRepeats(map_[..|a|])
  }

  method Exchange(a: array<nat>, m: array<nat>, i: nat, j: nat, ghost b: seq<nat>)
    requires a != m && i < j < a.Length <= m.Length && Tracks(a[..], m[..], b)
    modifies a, m
    ensures Tracks(a[..], m[..], b)
    ensures a[..] == old(a[..])[i := old(a[j])][j := old(a[i])]
  {
    ghost var p := m[..a.Length];
    a[i], a[j] := a[j], a[i];
    m[i], m[j] := m[j], m[i];
    assert m[..a.Length] == p[i := p[j]][j := p[i]];
  }

  /** The first i elements are in their final places. */
  ghost predicate Front(s: seq<nat>, i: nat) {
    forall x, y :: 0 <= x < i && x <= y < |s| ==> s[x] <= s[y]
  }

  /** No element between i and j is below the i-th. */
  ghost predicate NoneBelow(s: seq<nat>, i: nat, j: nat) {
    forall y :: i < y < j && y < |s| ==> s[i] <= s[y]
  }

  lemma FrontSwap(s: seq<nat>, i: nat, j: nat)
    requires Front(s, i) && i < j < |s|
    ensures Front(s[i := s[j]][j := s[i]], i)
  {
  }

  lemma NoneBelowSwap(s: seq<nat>, i: nat, j: nat)
    requires NoneBelow(s, i, j) && i < j < |s| && s[j] < s[i]
    ensures NoneBelow(s[i := s[j]][j := s[i]], i, j + 1)
  {
  }

  lemma FrontNext(s: seq<nat>, i: nat)
    requires Front(s, i) && i < |s| && NoneBelow(s, i, |s|)
    ensures Front(s, i + 1)
  {
  }

  lemma FrontAll(s: seq<nat>, i: nat)
    requires Front(s, i) && |s| <= i + 1
    ensures Sorted(s)
  {
  }

  /** insertion, which is an exchange sort. */
  method Insertion(m: array<nat>, a: array<nat>, ghost b: seq<nat>)
    requires a.Length > 0 && a != m && a.Length <= m.Length && Tracks(a[..], m[..], b)
    modifies a, m
    ensures Sorted(a[..]) && Tracks(a[..], m[..], b)
  {
    var n := a.Length;
    var i := 0;
    assert Front(a[..], 0);
    hide Tracks, Front, Sorted;
    while i < n - 1
      invariant 0 <= i <= n && Tracks(a[..], m[..], b) && Front(a[..], i)
    {
      var j := i + 1;
      assert NoneBelow(a[..], i, i + 1);
      while j < n
        invariant i < j <= n && Tracks(a[..], m[..], b) && Front(a[..], i) && NoneBelow(a[..], i, j)
      {
        if a[j] < a[i] {
          FrontSwap(a[..], i, j);
          NoneBelowSwap(a[..], i, j);
          Exchange(a, m, i, j, b);
        }
        j := j + 1;
      }
      FrontNext(a[..], i);
      i := i + 1;
    }
    FrontAll(a[..], i);
  }

  /** sort: the array ends up in order, and map tells for every place where its element came from. */
  method Sort(a: array<nat>, m: array<nat>)
    requires a.Length > 0 && a != m && a.Length <= m.Length
    modifies a, m
    ensures Sorted(a[..]) && Tracks(a[..], m[..], old(a[..]))
  {
    var i := 0;
    while i < a.Length
      invariant 0 <= i <= a.Length
      invariant forall x :: 0 <= x < i ==> m[x] == x
      modifies m
    {
      m[i] := i;
      i := i + 1;
    }
    Insertion(m, a, old(a[..]));
  }

  /** A tracked sequence has every position of the original once, so the same elements and the same sum. */
  lemma TracksAll(a: seq<nat>, m: seq<nat>, b: seq<nat>, x: nat) returns (i: nat)
    requires Tracks(a, m, b) && x < |b|
    ensures i < |a| && m[i] == x
  {
    var p := m[..|a|];
    DistinctCount(p);
    hide Below;
    SubsetFull((set y | y in p), Below(|b|));
    assert x in Below(|b|);
    assert x in p;
    i :| 0 <= i < |p| && p[i] == x;
  }

  // Smart Round-Robin.

  /** Of the n elements in order, after the single lightest of an odd number, the u-th and its mirror image from the heavy
      end are a pair; in 2 h rounds every pair is given to a thread twice, and the later round counts. */
  function LastRound(h: nat, u: nat, rounds: nat): int {
    var v := 2 * h - 1 - u;
    var late, early := if u < v then v else u, if u < v then u else v;
    if late < rounds then late else early
  }

  /** The u-th from the light end, leaving out the single lightest of an odd number. */
  function Light(m: seq<nat>, u: nat): nat
    requires u < 2 * (|m| / 2)
  {
    m[|m| % 2 + u]
  }

  /** The u-th from the heavy end. */
  function Heavy(m: seq<nat>, u: nat): nat
    requires u < |m|
  {
    m[|m| - 1 - u]
  }

  ghost predicate Dealt(taskmap: seq<nat>, map_: seq<nat>, nthreads: nat, rounds: nat)
    requires nthreads > 0
  {
    var h := |map_| / 2;
    forall u: nat :: u < 2 * h && (u < rounds || 2 * h - 1 - u < rounds) ==>
      DealtOne(taskmap, Light(map_, u), nthreads, LastRound(h, u, rounds))
  }

  /** The task at x is on the thread of that round. */
  predicate DealtOne(taskmap: seq<nat>, x: nat, nthreads: nat, round: int)
    requires nthreads > 0
  {
    round >= 0 && x < |taskmap| && taskmap[x] == round % nthreads
  }

  lemma DealtNone(t: seq<nat>, m: seq<nat>, nthreads: nat)
    requires nthreads > 0
    ensures Dealt(t, m, nthreads, 0)
  {
  }

  lemma DealOne(t: seq<nat>, m: seq<nat>, nthreads: nat, u: nat, tid: nat)
    requires nthreads > 0 && |t| == |m| && Places(m) && u < 2 * (|m| / 2) && Dealt(t, m, nthreads, u) && tid == u % nthreads
    ensures var k := |m| % 2; m[k + u] < |t| && m[|m| - 1 - u] < |t|
    ensures var k := |m| % 2; Dealt(t[m[k + u] := tid][m[|m| - 1 - u] := tid], m, nthreads, u + 1)
  {
    var h, k := |m| / 2, |m| % 2;
    var r := t[m[k + u] := tid][m[|m| - 1 - u] := tid];
    forall x: nat | x < 2 * h && (x < u + 1 || 2 * h - 1 - x < u + 1)
      ensures DealtOne(r, Light(m, x), nthreads, LastRound(h, x, u + 1))
    {
      if x == u || x == 2 * h - 1 - u {
        hide Dealt;
        assert LastRound(h, x, u + 1) == u;
      } else {
        OtherRound(h, x, u);
        assert DealtOne(t, Light(m, x), nthreads, LastRound(h, x, u));
        hide Dealt, LastRound;
        assert m[k + x] != m[k + u] && m[k + x] != m[|m| - 1 - u];
      }
    }
  }

  lemma OtherRound(h: nat, x: nat, u: nat)
    requires x < 2 * h && u < 2 * h && (x < u + 1 || 2 * h - 1 - x < u + 1) && x != u && x != 2 * h - 1 - u
    ensures (x < u || 2 * h - 1 - x < u) && LastRound(h, x, u + 1) == LastRound(h, x, u)
  {
  }

  /** What the rounds before have added to the load of thread t: both tasks of every round that was its turn, as the sorted array
      has them at their original places. */
  function RoundLoad(a: seq<nat>, m: seq<nat>, nthreads: nat, t: nat, rounds: nat): nat
    requires nthreads > 0 && |a| == |m| && Places(m) && rounds <= 2 * (|m| / 2)
  {
    if rounds == 0 then 0
    else
      var u := rounds - 1;
      RoundLoad(a, m, nthreads, t, u) + if u % nthreads == t then a[Light(m, u)] + a[Heavy(m, u)] else 0
  }

  /** The loads, as an unsigned holds them. */
  ghost predicate Loaded(load: seq<nat>, a: seq<nat>, m: seq<nat>, nthreads: nat, rounds: nat)
    requires nthreads > 0 && |a| == |m| && Places(m) && rounds <= 2 * (|m| / 2)
  {
    nthreads <= |load| && forall t: nat :: t < nthreads ==> load[t] == RoundLoad(a, m, nthreads, t, rounds) % UINT
  }

  lemma LoadedNext(load: seq<nat>, a: seq<nat>, m: seq<nat>, nthreads: nat, u: nat)
    requires nthreads > 0 && |a| == |m| && Places(m) && u < 2 * (|m| / 2) && Loaded(load, a, m, nthreads, u)
    ensures var t := u % nthreads;
            Light(m, u) < |a| && Heavy(m, u) < |a| && t < |load|
            && Loaded(load[t := (load[t] + a[Light(m, u)] + a[Heavy(m, u)]) % UINT], a, m, nthreads, u + 1)
  {
    var t := u % nthreads;
    ModAdd(RoundLoad(a, m, nthreads, t, u), a[Light(m, u)] + a[Heavy(m, u)]);
  }

  lemma ModAdd(x: nat, y: nat)
    ensures (x % UINT + y) % UINT == (x + y) % UINT
  {
  }

  /** u is the first thread with the least load after all rounds. */
  ghost predicate LightestOn(a: seq<nat>, m: seq<nat>, nthreads: nat, u: nat)
    requires nthreads > 0 && |a| == |m| && Places(m)
  {
    var rounds := 2 * (|m| / 2);
    && u < nthreads
    && (forall t: nat :: t < nthreads ==> RoundLoad(a, m, nthreads, u, rounds) % UINT <= RoundLoad(a, m, nthreads, t, rounds) % UINT)
    && (forall t: nat :: t < u ==> RoundLoad(a, m, nthreads, u, rounds) % UINT < RoundLoad(a, m, nthreads, t, rounds) % UINT)
  }

  /** The single lightest task is there. */
  ghost predicate Lightest(t: seq<nat>, a: seq<nat>, m: seq<nat>, nthreads: nat)
    requires nthreads > 0 && |a| == |m| && Places(m)
  {
    m != [] && m[0] < |t| && LightestOn(a, m, nthreads, t[m[0]])
  }

  lemma LeastIsLightest(load: seq<nat>, a: seq<nat>, m: seq<nat>, nthreads: nat, u: nat)
    requires nthreads > 0 && |a| == |m| && Places(m) && Loaded(load, a, m, nthreads, 2 * (|m| / 2)) && u < nthreads
    requires (forall t :: 0 <= t < nthreads ==> load[u] <= load[t]) && forall t :: 0 <= t < u ==> load[u] < load[t]
    ensures LightestOn(a, m, nthreads, u)
  {
    hide RoundLoad, Places;
  }

  method LeastLoaded(load: array<nat>, nthreads: nat) returns (tid: nat)
    requires 0 < nthreads <= load.Length
    ensures tid < nthreads && forall j :: 0 <= j < nthreads ==> load[tid] <= load[j]
    ensures forall j :: 0 <= j < tid ==> load[tid] < load[j]
  {
    tid := 0;
    var j := 1;
    while j < nthreads
      invariant 1 <= j <= nthreads && tid < j
      invariant forall x :: 0 <= x < j ==> load[tid] <= load[x]
      invariant forall x :: 0 <= x < tid ==> load[tid] < load[x]
    {
      if load[j] < load[tid] {
        tid := j;
      }
      j := j + 1;
    }
  }

  /** With h pairs, both tasks of pair u are on thread (2 h - 1 - u) mod nthreads. */
  ghost predicate Paired(t: seq<nat>, m: seq<nat>, nthreads: nat)
    requires nthreads > 0
  {
    forall u: nat :: u < |m| / 2 ==>
      && Light(m, u) < |t| && Heavy(m, u) < |t|
      && t[Light(m, u)] == t[Heavy(m, u)] == (2 * (|m| / 2) - 1 - u) % nthreads
  }

  ghost predicate OnTeam(t: seq<nat>, nthreads: nat) {
    forall x :: 0 <= x < |t| ==> t[x] < nthreads
  }

  /** srr_balance. The tasks are sorted in place, the two ends are paired, and the single lightest task of an odd number goes to
      the first thread with the least load. */
  method SrrBalance(tasks: array<nat>, nthreads: nat) returns (taskmap: array<nat>, ghost sortmap: seq<nat>)
    requires 0 < nthreads <= tasks.Length
    modifies tasks
    ensures fresh(taskmap) && taskmap.Length == tasks.Length == |sortmap|
    ensures Sorted(tasks[..]) && Tracks(tasks[..], sortmap, old(tasks[..]))
    ensures OnTeam(taskmap[..], nthreads) && Paired(taskmap[..], sortmap, nthreads)
    ensures Places(sortmap)
    ensures tasks.Length % 2 == 1 ==> Lightest(taskmap[..], tasks[..], sortmap, nthreads)
  {
    hide Paired, OnTeam, Sorted, Tracks, Places, Lightest;
    var map_ := new nat[tasks.Length];
    Sort(tasks, map_);
    sortmap := map_[..];
    TrackedPlaces(tasks[..], sortmap, old(tasks[..]));
    taskmap := DealTasks(tasks, map_, nthreads, old(tasks[..]));
  }

  /** The rounds, and the single lightest task of an odd number. */
  method DealTasks(tasks: array<nat>, map_: array<nat>, nthreads: nat, ghost was: seq<nat>) returns (taskmap: array<nat>)
    requires 0 < nthreads <= tasks.Length == map_.Length && Tracks(tasks[..], map_[..], was) && Places(map_[..])
    ensures fresh(taskmap) && taskmap.Length == tasks.Length
    ensures OnTeam(taskmap[..], nthreads) && Paired(taskmap[..], map_[..], nthreads)
    ensures tasks.Length % 2 == 1 ==> Lightest(taskmap[..], tasks[..], map_[..], nthreads)
  {
    hide Dealt, Paired, OnTeam, Tracks, Places, Loaded, LightestOn;
    var n := tasks.Length;
    ghost var a: seq<nat>, m: seq<nat> := tasks[..], map_[..];
    var load := new nat[n](_ => 0);
    taskmap := new nat[n];
    DealAll(tasks, taskmap, load, map_, nthreads);
    ghost var dealt: seq<nat> := taskmap[..];
    if n % 2 == 1 {
      PlaceAt(m, 0);
      PlaceLightest(tasks, taskmap, load, map_, nthreads);
    }
    LightestLast(dealt, taskmap[..], a, m, was, nthreads);
  }

  /** The single lightest task of an odd number. */
  method PlaceLightest(tasks: array<nat>, taskmap: array<nat>, load: array<nat>, map_: array<nat>, nthreads: nat)
    requires tasks.Length == taskmap.Length == load.Length == map_.Length && tasks.Length % 2 == 1 && 0 < nthreads <= tasks.Length
    requires taskmap != load && taskmap != map_ && tasks != taskmap && Places(map_[..]) && map_[0] < taskmap.Length
    requires Loaded(load[..], tasks[..], map_[..], nthreads, 2 * (map_.Length / 2))
    modifies taskmap
    ensures var u := taskmap[map_[0]];
            u < nthreads && taskmap[..] == old(taskmap[..])[map_[0] := u] && LightestOn(tasks[..], map_[..], nthreads, u)
  {
    hide Places, Loaded, LightestOn;
    ghost var was := taskmap[..];
    var least := LeastLoaded(load, nthreads);
    LeastIsLightest(load[..], tasks[..], map_[..], nthreads, least);
    taskmap[map_[0]] := least;
    assert taskmap[..] == was[map_[0] := least];
  }

  /** The numbers below |m|, each once. */
  ghost predicate Places(m: seq<nat>) {
    NoRepeats(m) && forall x :: 0 <= x < |m| ==> m[x] < |m|
  }

  lemma TrackedPlaces(a: seq<nat>, m: seq<nat>, b: seq<nat>)
    requires Tracks(a, m, b) && |a| == |m|
    ensures Places(m)
  {
    assert m[..|a|] == m;
  }

  lemma PlaceAt(m: seq<nat>, i: nat)
    requires Places(m) && i < |m|
    ensures m[i] < |m|
  {
  }

  /** The rounds, twice as many as there are pairs. */
  method DealAll(tasks: array<nat>, taskmap: array<nat>, load: array<nat>, map_: array<nat>, nthreads: nat)
    requires tasks.Length == taskmap.Length == load.Length == map_.Length && 0 < nthreads <= tasks.Length
    requires taskmap != load && taskmap != map_ && load != map_ && tasks != load && tasks != taskmap
    requires Places(map_[..]) && forall t :: 0 <= t < nthreads ==> load[t] == 0
    modifies taskmap, load
    ensures Dealt(taskmap[..], map_[..], nthreads, 2 * (map_.Length / 2))
    ensures Loaded(load[..], tasks[..], map_[..], nthreads, 2 * (map_.Length / 2))
  {
    LoadedNone(load[..], tasks[..], map_[..], nthreads);
    hide Dealt, Places, Loaded;
    var n := tasks.Length;
    var tid, k, i := 0, n % 2, n % 2;
    DivUnique(0, nthreads, 0, 0);
    DealtNone(taskmap[..], map_[..], nthreads);
    while i < n
      invariant k <= i <= n && tid == (i - k) % nthreads
      invariant Dealt(taskmap[..], map_[..], nthreads, i - k)
      invariant Loaded(load[..], tasks[..], map_[..], nthreads, i - k)
    {
      tid := DealRound(tasks, taskmap, load, map_, nthreads, i, tid);
      i := i + 1;
    }
  }

  lemma LoadedNone(load: seq<nat>, a: seq<nat>, m: seq<nat>, nthreads: nat)
    requires 0 < nthreads <= |load| && |a| == |m| && Places(m) && forall t :: 0 <= t < nthreads ==> load[t] == 0
    ensures Loaded(load, a, m, nthreads, 0)
  {
  }

  /** After all rounds every pair is on the thread of its later round. */
  lemma DealtAt(t: seq<nat>, m: seq<nat>, nthreads: nat, u: nat)
    requires nthreads > 0 && Dealt(t, m, nthreads, 2 * (|m| / 2)) && u < 2 * (|m| / 2)
    ensures var v := 2 * (|m| / 2) - 1 - u;
            Light(m, u) < |t| && t[Light(m, u)] == (if u < v then v else u) % nthreads < nthreads
  {
    hide LastRound;
    AllRounds(|m| / 2, u);
    assert DealtOne(t, Light(m, u), nthreads, LastRound(|m| / 2, u, 2 * (|m| / 2)));
  }

  lemma AllRounds(h: nat, u: nat)
    requires u < 2 * h
    ensures LastRound(h, u, 2 * h) == var v := 2 * h - 1 - u; if u < v then v else u
  {
  }

  lemma DealtPairs(t: seq<nat>, m: seq<nat>, nthreads: nat)
    requires nthreads > 0 && Dealt(t, m, nthreads, 2 * (|m| / 2))
    ensures Paired(t, m, nthreads)
  {
    hide Dealt;
    var h := |m| / 2;
    forall u: nat | u < h
      ensures Light(m, u) < |t| && Heavy(m, u) < |t| && t[Light(m, u)] == t[Heavy(m, u)] == (2 * h - 1 - u) % nthreads
    {
      DealtAt(t, m, nthreads, u);
      DealtAt(t, m, nthreads, 2 * h - 1 - u);
      assert Heavy(m, u) == Light(m, 2 * h - 1 - u);
    }
  }

  /** The lightest task of an odd number changes no pair, and completes the map. */
  lemma LightestLast(dealt: seq<nat>, t: seq<nat>, a: seq<nat>, m: seq<nat>, b: seq<nat>, nthreads: nat)
    requires |t| == |dealt| == |m| == |a| && Tracks(a, m, b) && nthreads > 0
    requires Dealt(dealt, m, nthreads, 2 * (|m| / 2))
    requires if |m| % 2 == 1 then m[0] < |t| && t[m[0]] < nthreads && t == dealt[m[0] := t[m[0]]] else t == dealt
    ensures OnTeam(t, nthreads) && Paired(t, m, nthreads)
  {
    hide Dealt, Tracks;
    TrackedPlaces(a, m, b);
    forall x | 0 <= x < |t| ensures t[x] < nthreads {
      hide Places, Paired;
      var p := TracksAll(a, m, b, x) by { TrackedLength(a, m, b); }
      if |m| % 2 == 0 || p > 0 {
        assert Light(m, p - |m| % 2) == x;
        DealtAt(dealt, m, nthreads, p - |m| % 2);
      }
    }
    DealtPairs(dealt, m, nthreads);
    if |m| % 2 == 1 { PairsKept(dealt, m, nthreads, t[m[0]]); }
  }

  lemma TrackedLength(a: seq<nat>, m: seq<nat>, b: seq<nat>)
    requires Tracks(a, m, b)
    ensures |a| == |b|
  {
  }

  lemma PairsKept(t: seq<nat>, m: seq<nat>, nthreads: nat, tid: nat)
    requires nthreads > 0 && |t| == |m| && |m| % 2 == 1 && Places(m) && Paired(t, m, nthreads)
    ensures m[0] < |t| && Paired(t[m[0] := tid], m, nthreads)
  {
    forall u: nat | u < |m| / 2 ensures Light(m, u) != m[0] && Heavy(m, u) != m[0] {
    }
  }

  /** One round: the pair at the two ends, its load, and the next thread. */
  method DealRound(tasks: array<nat>, taskmap: array<nat>, load: array<nat>, map_: array<nat>, nthreads: nat, i: nat, tid: nat)
    returns (next: nat)
    requires tasks.Length == taskmap.Length == load.Length == map_.Length && 0 < nthreads <= tasks.Length
    requires taskmap != load && taskmap != map_ && load != map_ && tasks != load && tasks != taskmap
    requires Places(map_[..]) && map_.Length % 2 <= i < map_.Length && tid == (i - map_.Length % 2) % nthreads
    requires Dealt(taskmap[..], map_[..], nthreads, i - map_.Length % 2)
    requires Loaded(load[..], tasks[..], map_[..], nthreads, i - map_.Length % 2)
    modifies taskmap, load
    ensures Loaded(load[..], tasks[..], map_[..], nthreads, i + 1 - map_.Length % 2)
    ensures Dealt(taskmap[..], map_[..], nthreads, i + 1 - map_.Length % 2)
    ensures next == (i + 1 - map_.Length % 2) % nthreads
  {
    hide Dealt, Places, Loaded;
    var n, k := map_.Length, map_.Length % 2;
    LoadedNext(load[..], tasks[..], map_[..], nthreads, i - k);
    DealOne(taskmap[..], map_[..], nthreads, i - k, tid);
    var l, r := map_[i], map_[n - (i - k + 1)];
    ghost var was: seq<nat> := taskmap[..];
    taskmap[l] := tid;
    taskmap[r] := tid;
    assert taskmap[..] == was[l := tid][r := tid];
    AddLoad(load, tid, tasks[l], tasks[r]);
    ModNext(i - k, nthreads);
    next := (tid + 1) % nthreads;
  }

  method AddLoad(load: array<nat>, tid: nat, light: nat, heavy: nat)
    requires tid < load.Length
    modifies load
    ensures load[..] == old(load[..])[tid := (old(load[tid]) + light + heavy) % UINT]
  {
    load[tid] := (load[tid] + light + heavy) % UINT;
  }

  /** The numbers of pairs that two threads get differ by at most one: pair u of h is on thread (2 h - 1 - u) mod m, and
      these are h consecutive numbers. */
  lemma {:induction false} PairsEven(lo: nat, n: nat, m: nat, t: nat)
    requires m > 0 && t < m
    ensures n / m <= CountIn(lo, lo + n, m, t) <= n / m + 1
    decreases n
  {
    if n < m {
      CountWindow(lo, m, t, n);
      DivUnique(n, m, 0, n);
    } else {
      CountSplit(lo, lo + m, lo + n, m, t);
      CountWindow(lo, m, t, m);
      PairsEven(lo + m, n - m, m, t);
      OneMore(n, m);
    }
  }

  lemma OneMore(n: nat, m: nat)
    requires 0 < m <= n
    ensures n / m == (n - m) / m + 1
  {
    var q, r := (n - m) / m, (n - m) % m;
    assert n - m == q * m + r && (q + 1) * m == q * m + m;
    DivUnique(n, m, q + 1, r);
  }

  /** The pairs u .. h - 1 that are on thread t. */
  function PairsOn(h: nat, u: nat, m: nat, t: nat): nat
    requires m > 0
    decreases h - u
  {
    if u >= h then 0 else (if (2 * h - 1 - u) % m == t then 1 else 0) + PairsOn(h, u + 1, m, t)
  }

  lemma {:induction false} PairsCounted(h: nat, u: nat, m: nat, t: nat)
    requires m > 0 && u <= h
    ensures PairsOn(h, u, m, t) == CountIn(h, 2 * h - u, m, t)
    decreases h - u
  {
    if u < h {
      PairsCounted(h, u + 1, m, t);
      CountSplit(h, 2 * h - u - 1, 2 * h - u, m, t);
    }
  }

  /** Smart Round-Robin is fair: two threads' numbers of pairs differ by at most one. */
  lemma SrrFair(h: nat, m: nat, t: nat, u: nat)
    requires m > 0 && t < m && u < m
    ensures PairsOn(h, 0, m, t) <= PairsOn(h, 0, m, u) + 1
  {
    PairsCounted(h, 0, m, t);
    PairsCounted(h, 0, m, u);
    PairsEven(h, h, m, t);
    PairsEven(h, h, m, u);
  }
}
