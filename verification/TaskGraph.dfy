/**
  The dependence graph that GOMP_task builds between sibling tasks (src/libgomp/task.c).

  Tasks are numbered in the order in which they are generated.  For every parent task and every address
  there is a chain of depend entries, newest first, that keeps only the latest `out` entry and the
  unfinished `in` entries.  `dependers[u]` is the vector of tasks waiting for u and `dependees[v]` is
  the number of unfinished tasks that v still waits for.
 */
module TaskGraph {

  import opened Sequences

  type Id = nat
  type Addr = int

  /** What GOMP_task records of a task: its parent (itself for an implicit task), the addresses of its depend
      clause, of which the first `nout` are out or inout, and whether it was deferred. */
  datatype Info = Info(parent: Id, depend: seq<Addr>, nout: nat, deferred: bool)

  /** One element of a chain: entry `idx` of the depend array of `task`. */
  datatype Entry = Entry(task: Id, idx: nat)

  datatype Graph = Graph(
    info: seq<Info>,
    done: set<Id>,
    dependers: seq<seq<Id>>,
    dependees: seq<int>,
    chains: map<(Id, Addr), seq<Entry>>,
    redundant: set<(Id, nat)>)

  // ---------------------------------------------------------------------------------------------------
  // Vocabulary

  ghost predicate Shaped(g: Graph) {
    |g.dependers| == |g.info| && |g.dependees| == |g.info|
  }

  predicate Live(g: Graph, t: Id) {
    t < |g.info| && t !in g.done
  }

  predicate Child(g: Graph, p: Id, t: Id) {
    p < t < |g.info| && g.info[t].parent == p
  }

  /** A live explicit task that went through the deferred branch of GOMP_task. */
  predicate Pending(g: Graph, t: Id) {
    Live(g, t) && g.info[t].deferred
  }

  /** Unfinished deferred tasks of one parent. */
  predicate Siblings(g: Graph, u: Id, v: Id) {
    Pending(g, u) && Pending(g, v) && g.info[u].parent == g.info[v].parent && g.info[u].parent < u && g.info[u].parent < v
  }

  predicate IsOut(g: Graph, t: Id, i: nat) {
    t < |g.info| && i < g.info[t].nout
  }

  predicate Depends(g: Graph, t: Id, i: nat, a: Addr) {
    t < |g.info| && i < |g.info[t].depend| && g.info[t].depend[i] == a
  }

  /** Two depend entries conflict when they name the same address and at least one of them is out. */
  ghost predicate ConflictAt(g: Graph, u: Id, i: nat, v: Id, j: nat) {
    && u < |g.info| && i < |g.info[u].depend|
    && Depends(g, v, j, g.info[u].depend[i])
    && (IsOut(g, u, i) || IsOut(g, v, j))
  }

  ghost predicate Conflict(g: Graph, u: Id, v: Id) {
    exists i: nat, j: nat :: ConflictAt(g, u, i, v, j)
  }

  predicate Edge(g: Graph, u: Id, v: Id) {
    u < |g.dependers| && v in g.dependers[u]
  }

  /** A non-empty path of dependers edges from u to v. */
  ghost predicate IsPath(g: Graph, path: seq<Id>, u: Id, v: Id) {
    && |path| >= 2 && path[0] == u && path[|path| - 1] == v
    && forall k {:trigger path[k]} :: 0 <= k < |path| - 1 ==> Edge(g, path[k], path[k + 1])
  }

  ghost predicate Path(g: Graph, u: Id, v: Id) {
    exists path :: IsPath(g, path, u, v)
  }

  function Chain(g: Graph, p: Id, a: Addr): seq<Entry> {
    if (p, a) in g.chains then g.chains[(p, a)] else []
  }

  predicate EntryOut(g: Graph, e: Entry) {
    IsOut(g, e.task, e.idx)
  }

  // ---------------------------------------------------------------------------------------------------
  // Operations

  /** Removes the entries of task t from a chain. */
  function Without(c: seq<Entry>, t: Id): (r: seq<Entry>)
    ensures forall e :: e in r <==> e in c && e.task != t
  {
    if c == [] then []
    else if c[0].task == t then Without(c[1..], t)
    else [c[0]] + Without(c[1..], t)
  }

  /** The tasks of chain c that a new entry must wait for: an in entry does not wait for in entries. */
  function Blockers(g: Graph, c: seq<Entry>, isIn: bool): set<Id> {
    set e | e in c && (!isIn || EntryOut(g, e)) :: e.task
  }

  /** The latest out entry of a chain. */
  function Outs(g: Graph, c: seq<Entry>): set<Entry> {
    set e | e in c && EntryOut(g, e)
  }

  function Flags(es: set<Entry>): set<(Id, nat)> {
    set e | e in es :: (e.task, e.idx)
  }

  /** The chain without its out entries. */
  function DropOuts(g: Graph, c: seq<Entry>): (r: seq<Entry>)
    ensures forall e :: e in r <==> e in c && !EntryOut(g, e)
  {
    if c == [] then []
    else if EntryOut(g, c[0]) then DropOuts(g, c[1..])
    else [c[0]] + DropOuts(g, c[1..])
  }

  /** Appends a task that has no edges. */
  function Append(g: Graph, inf: Info): Graph {
    g.(info := g.info + [inf], dependers := g.dependers + [[]], dependees := g.dependees + [0])
  }

  function AddEdges(g: Graph, us: set<Id>, t: Id): (r: seq<seq<Id>>)
    ensures |r| == |g.dependers|
  {
    seq(|g.dependers|, u requires 0 <= u < |g.dependers| =>
      if u in us && t !in g.dependers[u] then g.dependers[u] + [t] else g.dependers[u])
  }

  function NewEdges(g: Graph, us: set<Id>, t: Id): set<Id> {
    set u | u in us && u < |g.dependers| && t !in g.dependers[u]
  }

  function Record(g: Graph, t: Id, a: Addr): Graph
    requires t < |g.info|
  {
    g.(info := g.info[t := g.info[t].(depend := g.info[t].depend + [a])])
  }

  /** A second entry for an address that t already names: only marked redundant. */
  function LinkRepeat(g: Graph, t: Id, a: Addr): Graph
    requires t < |g.info|
  {
    Record(g, t, a).(redundant := g.redundant + {(t, |g.info[t].depend|)})
  }

  /** The tasks the next entry of t, for address a, waits for. */
  function LinkBlockers(g: Graph, t: Id, a: Addr): set<Id>
    requires t < |g.info|
  {
    Blockers(g, Chain(g, g.info[t].parent, a), |g.info[t].depend| >= g.info[t].nout)
  }

  /** The chain of a after the next entry of t is pushed: an out entry takes the place of the previous one. */
  function LinkedChain(g: Graph, t: Id, a: Addr): seq<Entry>
    requires t < |g.info|
  {
    var i := |g.info[t].depend|;
    var c := Chain(g, g.info[t].parent, a);
    [Entry(t, i)] + if i < g.info[t].nout then DropOuts(g, c) else c
  }

  function LinkNew(g: Graph, t: Id, a: Addr): Graph
    requires Shaped(g) && t < |g.info|
  {
    var i := |g.info[t].depend|;
    var us := LinkBlockers(g, t, a);
    var dead := if i < g.info[t].nout then Outs(g, Chain(g, g.info[t].parent, a)) else {};
    Record(g, t, a).(
      dependers := AddEdges(g, us, t),
      dependees := g.dependees[t := g.dependees[t] + |NewEdges(g, us, t)|],
      chains := g.chains[(g.info[t].parent, a) := LinkedChain(g, t, a)],
      redundant := g.redundant + Flags(dead))
  }

  predicate Repeats(g: Graph, t: Id, a: Addr)
    requires t < |g.info|
  {
    var c := Chain(g, g.info[t].parent, a);
    c != [] && c[0].task == t
  }

  /** Processes the next depend address of the newest task t (task.c:280-359). */
  function LinkDep(g: Graph, t: Id, a: Addr): Graph
    requires Shaped(g) && t < |g.info|
  {
    if Repeats(g, t, a) then LinkRepeat(g, t, a) else LinkNew(g, t, a)
  }

  /** The whole depend loop of GOMP_task. */
  function LinkDeps(g: Graph, t: Id, depend: seq<Addr>): (r: Graph)
    requires Shaped(g) && t < |g.info|
    ensures Shaped(r) && |r.info| == |g.info|
    decreases |depend|
  {
    if depend == [] then g
    else LinkDep(LinkDeps(g, t, depend[..|depend| - 1]), t, depend[|depend| - 1])
  }

  /** The deferred branch of GOMP_task. */
  function Spawn(g: Graph, p: Id, depend: seq<Addr>, nout: nat): (r: Graph)
    requires Shaped(g)
    ensures Shaped(r) && |r.info| == |g.info| + 1
  {
    LinkDeps(Append(g, Info(p, [], nout, true)), |g.info|, depend)
  }

  /** An undeferred task: its depend array never enters a chain. */
  function SpawnUndeferred(g: Graph, p: Id, depend: seq<Addr>, nout: nat): Graph
    requires Shaped(g)
  {
    Append(g, Info(p, depend, nout, false))
  }

  /** The test GOMP_task makes before running a task at once (task.c:149-172). */
  ghost predicate MustDefer(g: Graph, p: Id, depend: seq<Addr>, nout: nat) {
    exists i, e :: Stops(g, p, depend, nout, i, e)
  }

  /** Entry e of the chain of address i is one the new task would have to wait for. */
  ghost predicate Stops(g: Graph, p: Id, depend: seq<Addr>, nout: nat, i: int, e: Entry) {
    0 <= i < |depend| && e in Chain(g, p, depend[i]) && (i < nout || EntryOut(g, e))
  }

  function RetiredChains(g: Graph, t: Id): map<(Id, Addr), seq<Entry>> {
    map k | k in g.chains && Without(g.chains[k], t) != [] :: Without(g.chains[k], t)
  }

  /** What gomp_task_run_post_handle_depend does to the graph when task t ends (task.c:447-476, 544-561). */
  function Retire(g: Graph, t: Id): Graph
    requires Shaped(g) && t < |g.info|
  {
    g.(done := g.done + {t},
       dependers := g.dependers[t := []],
       dependees := seq(|g.dependees|, v requires 0 <= v < |g.dependees| =>
         if v in g.dependers[t] then g.dependees[v] - 1 else g.dependees[v]),
       chains := RetiredChains(g, t))
  }

  // ---------------------------------------------------------------------------------------------------
  // Invariant

  ghost function Preds(g: Graph, v: Id): set<Id> {
    set u: Id | u < |g.dependers| && v in g.dependers[u]
  }

  ghost predicate Ordered(g: Graph) {
    forall t: Id :: t < |g.info| ==> g.info[t].parent <= t && (g.info[t].deferred ==> g.info[t].parent < t)
  }

  /** Parents outlive their children. */
  ghost predicate ParentsLive(g: Graph) {
    && (forall t: Id :: t in g.done ==> t < |g.info|)
    && (forall t: Id :: Live(g, t) ==> Live(g, g.info[t].parent))
  }

  /** Edges join unfinished deferred siblings, forwards, and only conflicting ones. */
  ghost predicate EdgesOk(g: Graph)
    requires Shaped(g)
  {
    && (forall u: Id, v: Id :: Edge(g, u, v) ==> u < v && Siblings(g, u, v) && Conflict(g, u, v))
    && (forall u: Id :: u < |g.info| ==> NoRepeats(g.dependers[u]))
  }

  ghost predicate CountsOk(g: Graph)
    requires Shaped(g)
  {
    forall v: Id :: v < |g.info| ==> g.dependees[v] == |Preds(g, v)|
  }

  ghost predicate NewestFirst(c: seq<Entry>) {
    forall i, j :: 0 <= i < j < |c| ==> c[i].task > c[j].task
  }

  ghost predicate Members(g: Graph, p: Id, a: Addr, c: seq<Entry>) {
    forall e :: e in c ==> Pending(g, e.task) && Child(g, p, e.task) && Depends(g, e.task, e.idx, a)
  }

  ghost predicate OneOut(g: Graph, c: seq<Entry>) {
    forall e, f :: e in c && f in c && EntryOut(g, e) && EntryOut(g, f) ==> e == f
  }

  ghost predicate ChainOk(g: Graph, p: Id, a: Addr, c: seq<Entry>) {
    NewestFirst(c) && Members(g, p, a, c) && OneOut(g, c)
  }

  ghost predicate ChainsOk(g: Graph) {
    forall p: Id, a :: (p, a) in g.chains ==> Chain(g, p, a) != [] && ChainOk(g, p, a, Chain(g, p, a))
  }

  /** The redundant flags say which entries are out of their chain. */
  ghost predicate FlagsOk(g: Graph) {
    && (forall t: Id, i: nat :: (t, i) in g.redundant ==> t < |g.info| && i < |g.info[t].depend|)
    && (forall t: Id, i: nat :: Pending(g, t) && i < |g.info[t].depend| ==>
         ((t, i) !in g.redundant <==> Entry(t, i) in Chain(g, g.info[t].parent, g.info[t].depend[i])))
  }

  /** Entry i of t is still represented: by itself or by a later out entry that t leads to. */
  ghost predicate Covered(g: Graph, t: Id, a: Addr, c: seq<Entry>, isOut: bool) {
    || (exists e :: e in c && e.task == t && (isOut ==> EntryOut(g, e)))
    || (exists e :: e in c && EntryOut(g, e) && Path(g, t, e.task))
  }

  ghost predicate CoverOk(g: Graph) {
    forall t: Id, i: nat, a :: Pending(g, t) && Depends(g, t, i, a) ==>
      Covered(g, t, a, Chain(g, g.info[t].parent, a), IsOut(g, t, i))
  }

  /** Every unfinished conflicting pair of deferred siblings is joined by a path. */
  ghost predicate PathsOk(g: Graph) {
    forall u: Id, v: Id :: u < v && Siblings(g, u, v) && Conflict(g, u, v) ==> Path(g, u, v)
  }

  ghost predicate Inv(g: Graph) {
    && Shaped(g) && Ordered(g) && ParentsLive(g) && EdgesOk(g) && CountsOk(g) && ChainsOk(g) && FlagsOk(g)
    && CoverOk(g) && PathsOk(g)
  }

  // ---------------------------------------------------------------------------------------------------
  // Paths

  lemma PathMono(g: Graph, h: Graph, u: Id, v: Id)
    requires Path(g, u, v)
    requires forall x: Id, y: Id :: Edge(g, x, y) ==> Edge(h, x, y)
    ensures Path(h, u, v)
  {
    var path :| IsPath(g, path, u, v);
    assert IsPath(h, path, u, v);
  }

  lemma PathExtend(g: Graph, u: Id, w: Id, v: Id)
    requires u == w || Path(g, u, w)
    requires Edge(g, w, v)
    ensures Path(g, u, v)
  {
    if u == w {
      assert IsPath(g, [u, v], u, v);
    } else {
      var path :| IsPath(g, path, u, w);
      assert IsPath(g, path + [v], u, v);
    }
  }

  /** A path ends with an edge. */
  lemma PathLast(g: Graph, u: Id, v: Id) returns (w: Id)
    requires Path(g, u, v)
    ensures Edge(g, w, v)
  {
    var path :| IsPath(g, path, u, v);
    w := path[|path| - 2];
    assert Edge(g, path[|path| - 2], path[|path| - 1]);
  }

  /** A path starts with an edge. */
  lemma PathFirst(g: Graph, u: Id, v: Id) returns (w: Id)
    requires Path(g, u, v)
    ensures Edge(g, u, w)
  {
    var path :| IsPath(g, path, u, v);
    w := path[1];
    assert Edge(g, path[0], path[1]);
  }

  // ---------------------------------------------------------------------------------------------------
  // Appending a task

  lemma AppendEdges(g: Graph, inf: Info)
    requires Shaped(g) && EdgesOk(g)
    ensures EdgesOk(Append(g, inf))
    ensures forall x: Id, y: Id :: Edge(Append(g, inf), x, y) <==> Edge(g, x, y)
  {
    var h := Append(g, inf);
    assert forall x: Id, y: Id :: Edge(h, x, y) <==> Edge(g, x, y);
    forall u: Id, v: Id | Edge(h, u, v) ensures u < v && Siblings(h, u, v) && Conflict(h, u, v) {
      assert Edge(g, u, v);
      var i: nat, j: nat :| ConflictAt(g, u, i, v, j);
      assert ConflictAt(h, u, i, v, j);
    }
  }

  lemma AppendCounts(g: Graph, inf: Info)
    requires Shaped(g) && EdgesOk(g) && CountsOk(g)
    ensures CountsOk(Append(g, inf))
  {
    var h := Append(g, inf);
    forall v: Id | v < |h.info| ensures h.dependees[v] == |Preds(h, v)| {
      if v < |g.info| {
        assert Preds(h, v) == Preds(g, v);
      } else {
        forall u: Id | u in Preds(h, v) ensures false { assert Edge(g, u, v); }
        assert Preds(h, v) == {};
      }
    }
  }

  lemma AppendCover(g: Graph, inf: Info)
    requires Shaped(g) && Ordered(g) && EdgesOk(g) && CoverOk(g) && ChainsOk(g) && (inf.deferred ==> inf.depend == [])
    ensures CoverOk(Append(g, inf))
  {
    var h := Append(g, inf);
    AppendEdges(g, inf);
    forall x: Id, i: nat, a | Pending(h, x) && Depends(h, x, i, a)
      ensures Covered(h, x, a, Chain(h, h.info[x].parent, a), IsOut(h, x, i))
    {
      assert Pending(g, x) && Depends(g, x, i, a);
      CoveredMono(g, h, x, a, Chain(g, g.info[x].parent, a), IsOut(g, x, i));
    }
  }

  lemma AppendPaths(g: Graph, inf: Info)
    requires Shaped(g) && EdgesOk(g) && PathsOk(g) && (inf.deferred ==> inf.depend == [])
    ensures PathsOk(Append(g, inf))
  {
    var h := Append(g, inf);
    AppendEdges(g, inf);
    forall u: Id, v: Id | u < v && Siblings(h, u, v) && Conflict(h, u, v) ensures Path(h, u, v) {
      var i: nat, j: nat :| ConflictAt(h, u, i, v, j);
      assert v < |g.info|;
      assert ConflictAt(g, u, i, v, j);
      PathMono(g, h, u, v);
    }
  }

  lemma AppendChains(g: Graph, inf: Info)
    requires ChainsOk(g)
    ensures ChainsOk(Append(g, inf))
  {
    var h := Append(g, inf);
    forall p: Id, a | (p, a) in h.chains ensures Chain(h, p, a) != [] && ChainOk(h, p, a, Chain(h, p, a)) {
      assert ChainOk(g, p, a, Chain(g, p, a));
    }
  }

  lemma AppendFlags(g: Graph, inf: Info)
    requires FlagsOk(g) && (inf.deferred ==> inf.depend == [])
    ensures FlagsOk(Append(g, inf))
  {
    var h := Append(g, inf);
    forall t: Id, i: nat | Pending(h, t) && i < |h.info[t].depend|
      ensures (t, i) !in h.redundant <==> Entry(t, i) in Chain(h, h.info[t].parent, h.info[t].depend[i])
    {
      assert Pending(g, t);
    }
  }

  lemma AppendParents(g: Graph, inf: Info)
    requires Ordered(g) && ParentsLive(g) && Live(g, inf.parent)
    ensures Ordered(Append(g, inf)) && ParentsLive(Append(g, inf))
  {
    var h := Append(g, inf);
    forall t: Id | Live(h, t) ensures Live(h, h.info[t].parent) {
      if t < |g.info| { assert Live(g, t); }
    }
  }

  lemma AppendInv(g: Graph, inf: Info)
    requires Inv(g) && Live(g, inf.parent) && (inf.deferred ==> inf.depend == [])
    ensures Inv(Append(g, inf))
  {
    var h := Append(g, inf);
    AppendEdges(g, inf);
    AppendCounts(g, inf);
    AppendCover(g, inf);
    AppendPaths(g, inf);
    AppendChains(g, inf);
    AppendFlags(g, inf);
    AppendParents(g, inf);
  }

  lemma CoveredMono(g: Graph, h: Graph, t: Id, a: Addr, c: seq<Entry>, isOut: bool)
    requires Covered(g, t, a, c, isOut)
    requires forall x: Id, y: Id :: Edge(g, x, y) ==> Edge(h, x, y)
    requires forall e :: e in c && EntryOut(g, e) ==> EntryOut(h, e)
    ensures Covered(h, t, a, c, isOut)
  {
    if !(exists e :: e in c && e.task == t && (isOut ==> EntryOut(g, e))) {
      var e :| e in c && EntryOut(g, e) && Path(g, t, e.task);
      PathMono(g, h, t, e.task);
    }
  }

  // ---------------------------------------------------------------------------------------------------
  // Linking the newest task

  ghost predicate Newest(g: Graph, t: Id) {
    && Shaped(g) && |g.info| == t + 1 && Pending(g, t) && g.info[t].parent < t && g.dependers[t] == []
  }

  /** An address the newest task already names shows up as the head of its chain. */
  lemma NamedIsHead(g: Graph, t: Id, i: nat, a: Addr)
    requires Newest(g, t) && ChainsOk(g) && CoverOk(g) && Depends(g, t, i, a)
    ensures Repeats(g, t, a) && (IsOut(g, t, i) ==> EntryOut(g, Chain(g, g.info[t].parent, a)[0]))
  {
    var p := g.info[t].parent;
    var c := Chain(g, p, a);
    assert Covered(g, t, a, c, IsOut(g, t, i));
    if !(exists e :: e in c && e.task == t && (IsOut(g, t, i) ==> EntryOut(g, e))) {
      var e :| e in c && EntryOut(g, e) && Path(g, t, e.task);
      var w := PathFirst(g, t, e.task);
      assert false;
    }
    var e :| e in c && e.task == t && (IsOut(g, t, i) ==> EntryOut(g, e));
    var k :| 0 <= k < |c| && c[k] == e;
    assert ChainOk(g, p, a, c);
    assert c[0] in c;
    assert k == 0;
  }

  lemma BlockersOlder(g: Graph, t: Id, a: Addr)
    requires Newest(g, t) && ChainsOk(g) && !Repeats(g, t, a)
    ensures forall e :: e in Chain(g, g.info[t].parent, a) ==> e.task < t && Siblings(g, e.task, t)
    ensures forall u :: u in LinkBlockers(g, t, a) ==> u < t && Siblings(g, u, t)
  {
    var p := g.info[t].parent;
    var c := Chain(g, p, a);
    forall e | e in c ensures e.task < t && Siblings(g, e.task, t) {
      assert ChainOk(g, p, a, c);
      var k :| 0 <= k < |c| && c[k] == e;
      assert c[0] in c;
    }
  }

  lemma LinkEdge(g: Graph, t: Id, a: Addr)
    requires Newest(g, t) && ChainsOk(g) && !Repeats(g, t, a)
    ensures forall x: Id, y: Id :: Edge(LinkNew(g, t, a), x, y) <==> Edge(g, x, y) || (y == t && x in LinkBlockers(g, t, a))
  {
    BlockersOlder(g, t, a);
    var h := LinkNew(g, t, a);
    forall x: Id, y: Id ensures Edge(h, x, y) <==> Edge(g, x, y) || (y == t && x in LinkBlockers(g, t, a)) {
      if x < |g.dependers| {
        assert h.dependers[x] == g.dependers[x] || h.dependers[x] == g.dependers[x] + [t];
      }
    }
  }

  lemma ConflictKept(g: Graph, h: Graph, u: Id, v: Id)
    requires Conflict(g, u, v)
    requires |g.info| <= |h.info|
    requires forall x: Id :: x < |g.info| ==> g.info[x].depend <= h.info[x].depend && g.info[x].nout == h.info[x].nout
    ensures Conflict(h, u, v)
  {
    var i: nat, j: nat :| ConflictAt(g, u, i, v, j);
    assert ConflictAt(h, u, i, v, j);
  }

  lemma LinkBlockerConflicts(g: Graph, t: Id, a: Addr, u: Id)
    requires Newest(g, t) && ChainsOk(g) && !Repeats(g, t, a) && u in LinkBlockers(g, t, a)
    ensures Conflict(LinkNew(g, t, a), u, t)
  {
    BlockersOlder(g, t, a);
    var h := LinkNew(g, t, a);
    var c := Chain(g, g.info[t].parent, a);
    var e :| e in c && e.task == u && (|g.info[t].depend| < g.info[t].nout || EntryOut(g, e));
    assert ChainOk(g, g.info[t].parent, a, c);
    assert ConflictAt(h, u, e.idx, t, |g.info[t].depend|);
  }

  lemma LinkEdges(g: Graph, t: Id, a: Addr)
    requires Newest(g, t) && ChainsOk(g) && EdgesOk(g) && !Repeats(g, t, a)
    ensures EdgesOk(LinkNew(g, t, a))
  {
    hide Conflict, ChainsOk, LinkBlockers, Repeats, NoRepeats, NewEdges, LinkedChain, Outs, Flags;
    var h := LinkNew(g, t, a);
    LinkEdge(g, t, a);
    LinkMono(g, t, a);
    BlockersOlder(g, t, a);
    forall u: Id, v: Id | Edge(h, u, v) ensures u < v && Siblings(h, u, v) && Conflict(h, u, v) {
      if Edge(g, u, v) {
        ConflictKept(g, h, u, v);
      } else {
        LinkBlockerConflicts(g, t, a, u);
      }
    }
    forall u: Id | u < |h.info| ensures NoRepeats(h.dependers[u]) {
      if h.dependers[u] != g.dependers[u] { NoRepeatsSnoc(g.dependers[u], t); }
    }
  }

  lemma NoRepeatsSnoc(s: seq<Id>, t: Id)
    requires NoRepeats(s) && t !in s
    ensures NoRepeats(s + [t])
  {
  }

  lemma LinkCounts(g: Graph, t: Id, a: Addr)
    requires Newest(g, t) && ChainsOk(g) && CountsOk(g) && !Repeats(g, t, a)
    ensures CountsOk(LinkNew(g, t, a))
  {
    var h := LinkNew(g, t, a);
    LinkEdge(g, t, a);
    BlockersOlder(g, t, a);
    var fresher := NewEdges(g, LinkBlockers(g, t, a), t);
    assert forall u: Id :: u in fresher <==> u in LinkBlockers(g, t, a) && !Edge(g, u, t);
    assert forall u: Id, v: Id :: u in Preds(g, v) <==> Edge(g, u, v);
    assert forall u: Id, v: Id :: u in Preds(h, v) <==> Edge(h, u, v);
    assert Preds(h, t) == Preds(g, t) + fresher;
    assert Preds(g, t) !! fresher;
    forall v: Id | v < t ensures h.dependees[v] == |Preds(h, v)| {
      assert Preds(h, v) == Preds(g, v);
    }
  }

  lemma DropOutsSorted(g: Graph, c: seq<Entry>)
    requires NewestFirst(c)
    ensures NewestFirst(DropOuts(g, c))
  {
    if c != [] && !EntryOut(g, c[0]) {
      var r := DropOuts(g, c[1..]);
      forall i, j | 0 <= i < j < |DropOuts(g, c)| ensures DropOuts(g, c)[i].task > DropOuts(g, c)[j].task {
        assert r[j - 1] in r;
      }
    }
  }

  lemma LinkedChainOk(g: Graph, t: Id, a: Addr)
    requires Newest(g, t) && ChainsOk(g) && !Repeats(g, t, a)
    ensures ChainOk(LinkNew(g, t, a), g.info[t].parent, a, LinkedChain(g, t, a))
  {
    var h := LinkNew(g, t, a);
    var p := g.info[t].parent;
    var c := Chain(g, p, a);
    BlockersOlder(g, t, a);
    assert c != [] ==> ChainOk(g, p, a, c);
    DropOutsSorted(g, c);
    var d := LinkedChain(g, t, a);
    assert NewestFirst(d) by {
      forall i, j | 0 <= i < j < |d| ensures d[i].task > d[j].task {
        if i == 0 { assert d[j] in c; }
      }
    }
    assert Members(h, p, a, d) by {
      forall e | e in d ensures Pending(h, e.task) && Child(h, p, e.task) && Depends(h, e.task, e.idx, a) {
        if e != d[0] { assert e in c; }
      }
    }
    assert OneOut(h, d) by {
      forall e, f | e in d && f in d && EntryOut(h, e) && EntryOut(h, f) ensures e == f {
        assert e == d[0] || e in c;
        assert f == d[0] || f in c;
        assert e in c ==> EntryOut(g, e);
        assert f in c ==> EntryOut(g, f);
      }
    }
  }

  lemma LinkChains(g: Graph, t: Id, a: Addr)
    requires Newest(g, t) && ChainsOk(g) && !Repeats(g, t, a)
    ensures ChainsOk(LinkNew(g, t, a))
  {
    var h := LinkNew(g, t, a);
    var p := g.info[t].parent;
    var c := Chain(g, p, a);
    BlockersOlder(g, t, a);
    LinkedChainOk(g, t, a);
    forall q: Id, b | (q, b) in h.chains ensures Chain(h, q, b) != [] && ChainOk(h, q, b, Chain(h, q, b)) {
      if (q, b) != (p, a) {
        assert ChainOk(g, q, b, Chain(g, q, b));
      }
    }
  }

  /** What the new entry changes about flags: only those of out entries on its chain. */
  lemma LinkDead(g: Graph, t: Id, a: Addr, x: Id, i: nat)
    requires Newest(g, t) && ChainsOk(g) && !Repeats(g, t, a)
    ensures (x, i) in LinkNew(g, t, a).redundant <==>
              (x, i) in g.redundant || (|g.info[t].depend| < g.info[t].nout && Entry(x, i) in Outs(g, Chain(g, g.info[t].parent, a)))
    ensures Entry(x, i) in Chain(g, g.info[t].parent, a) ==> x < t && Siblings(g, x, t) && Depends(g, x, i, a)
    ensures Entry(x, i) in Outs(g, Chain(g, g.info[t].parent, a)) ==> Entry(x, i) in Chain(g, g.info[t].parent, a)
  {
    hide Siblings, LinkBlockers, AddEdges, NewEdges, LinkedChain;
    var p := g.info[t].parent;
    BlockersOlder(g, t, a);
    assert Chain(g, p, a) != [] ==> ChainOk(g, p, a, Chain(g, p, a));
    assert forall es: set<Entry> :: (x, i) in Flags(es) <==> Entry(x, i) in es;
  }

  lemma LinkFlag(g: Graph, t: Id, a: Addr, x: Id, i: nat)
    requires Newest(g, t) && ChainsOk(g) && FlagsOk(g) && CoverOk(g) && !Repeats(g, t, a)
    requires Pending(g, x) && i < |g.info[x].depend|
    ensures (x, i) !in LinkNew(g, t, a).redundant <==> Entry(x, i) in Chain(LinkNew(g, t, a), g.info[x].parent, g.info[x].depend[i])
  {
    hide ChainsOk, CoverOk, NewEdges, AddEdges, LinkBlockers, Repeats, Flags;
    assert (x, i) !in g.redundant <==> Entry(x, i) in Chain(g, g.info[x].parent, g.info[x].depend[i]);
    hide FlagsOk;
    LinkDead(g, t, a, x, i);
    if x == t && g.info[t].depend[i] == a { NamedIsHead(g, t, i, a); }
  }

  lemma LinkFlags(g: Graph, t: Id, a: Addr)
    requires Newest(g, t) && ChainsOk(g) && FlagsOk(g) && CoverOk(g) && Ordered(g) && !Repeats(g, t, a)
    ensures FlagsOk(LinkNew(g, t, a))
  {
    hide ChainsOk, CoverOk, NewEdges, AddEdges, LinkBlockers, Repeats, Flags, Outs, Ordered, DropOuts;
    var h := LinkNew(g, t, a);
    var n := |g.info[t].depend|;
    forall x: Id, i: nat | (x, i) in h.redundant ensures x < |h.info| && i < |h.info[x].depend| {
      LinkDead(g, t, a, x, i);
    }
    forall x: Id, i: nat | Pending(h, x) && i < |h.info[x].depend|
      ensures (x, i) !in h.redundant <==> Entry(x, i) in Chain(h, h.info[x].parent, h.info[x].depend[i])
    {
      if x == t && i == n {
        assert Entry(t, n) == LinkedChain(g, t, a)[0] && Entry(t, n) in LinkedChain(g, t, a);
        LinkDead(g, t, a, t, n);
      } else {
        LinkFlag(g, t, a, x, i);
      }
    }
  }

  lemma LinkCover(g: Graph, t: Id, a: Addr)
    requires Newest(g, t) && ChainsOk(g) && CoverOk(g) && Ordered(g) && !Repeats(g, t, a)
    ensures CoverOk(LinkNew(g, t, a))
  {
    var h := LinkNew(g, t, a);
    LinkEdge(g, t, a);
    forall x: Id, i: nat, b | Pending(h, x) && Depends(h, x, i, b)
      ensures Covered(h, x, b, Chain(h, h.info[x].parent, b), IsOut(h, x, i))
    {
      var p := g.info[x].parent;
      if x == t && i == |g.info[t].depend| {
        assert Entry(t, i) == LinkedChain(g, t, a)[0];
      } else {
        assert Pending(g, x) && Depends(g, x, i, b);
        if p == g.info[t].parent && b == a {
          if x == t { NamedIsHead(g, t, i, a); }
          LinkCovered(g, t, a, x, IsOut(g, x, i));
        } else {
          CoveredMono(g, h, x, b, Chain(g, p, b), IsOut(g, x, i));
        }
      }
    }
  }

  /** An entry of the chain stays on it, or is an out entry replaced by one of t, which now waits for it. */
  lemma LinkMember(g: Graph, t: Id, a: Addr, e: Entry)
    requires Newest(g, t) && ChainsOk(g) && !Repeats(g, t, a) && e in Chain(g, g.info[t].parent, a)
    ensures EntryOut(LinkNew(g, t, a), e) <==> EntryOut(g, e)
    ensures var n := |g.info[t].depend|;
      || e in LinkedChain(g, t, a)
      || (&& Edge(LinkNew(g, t, a), e.task, t)
          && Entry(t, n) in LinkedChain(g, t, a) && EntryOut(LinkNew(g, t, a), Entry(t, n)))
  {
    LinkEdge(g, t, a);
    BlockersOlder(g, t, a);
    var n := |g.info[t].depend|;
    assert LinkedChain(g, t, a)[0] == Entry(t, n);
    if n < g.info[t].nout && EntryOut(g, e) {
      assert e.task in LinkBlockers(g, t, a);
    } else if n < g.info[t].nout {
      assert e in DropOuts(g, Chain(g, g.info[t].parent, a));
    }
  }

  /** Pushing t on the chain of a keeps x covered; an out entry that t replaces now leads to t. */
  lemma LinkCovered(g: Graph, t: Id, a: Addr, x: Id, isOut: bool)
    requires Newest(g, t) && ChainsOk(g) && !Repeats(g, t, a)
    requires Covered(g, x, a, Chain(g, g.info[t].parent, a), isOut)
    ensures Covered(LinkNew(g, t, a), x, a, LinkedChain(g, t, a), isOut)
  {
    var h := LinkNew(g, t, a);
    var c := Chain(g, g.info[t].parent, a);
    LinkEdge(g, t, a);
    if e :| e in c && e.task == x && (isOut ==> EntryOut(g, e)) {
      LinkMember(g, t, a, e);
      if e !in LinkedChain(g, t, a) { PathExtend(h, x, x, t); }
    } else {
      var e :| e in c && EntryOut(g, e) && Path(g, x, e.task);
      PathMono(g, h, x, e.task);
      LinkMember(g, t, a, e);
      if e !in LinkedChain(g, t, a) { PathExtend(h, x, e.task, t); }
    }
  }

  /** Whoever the new entry conflicts with is on the chain, or leads to an out entry on it. */
  lemma LinkPathTo(g: Graph, t: Id, a: Addr, u: Id, isOut: bool)
    requires Newest(g, t) && ChainsOk(g) && !Repeats(g, t, a)
    requires Covered(g, u, a, Chain(g, g.info[t].parent, a), isOut) && (isOut || |g.info[t].depend| < g.info[t].nout)
    ensures Path(LinkNew(g, t, a), u, t)
  {
    hide ChainsOk, Path, Edge, LinkNew, Repeats, EntryOut, Chain;
    var c := Chain(g, g.info[t].parent, a);
    LinkEdge(g, t, a);
    LinkMono(g, t, a);
    if e :| e in c && e.task == u && (isOut ==> EntryOut(g, e)) {
      assert u in LinkBlockers(g, t, a);
      PathExtend(LinkNew(g, t, a), u, u, t);
    } else {
      var e :| e in c && EntryOut(g, e) && Path(g, u, e.task);
      assert e.task in LinkBlockers(g, t, a);
      PathMono(g, LinkNew(g, t, a), u, e.task);
      PathExtend(LinkNew(g, t, a), u, e.task, t);
    }
  }

  lemma LinkMono(g: Graph, t: Id, a: Addr)
    requires Newest(g, t)
    ensures var h := LinkNew(g, t, a); forall x: Id, y: Id :: Edge(g, x, y) ==> Edge(h, x, y)
    ensures var h := LinkNew(g, t, a); forall x: Id, y: Id :: Siblings(h, x, y) <==> Siblings(g, x, y)
  {
    hide NewEdges, LinkBlockers, LinkedChain, Outs, Flags;
  }

  /** A conflict other than one with the new entry is an old one. */
  lemma LinkConflict(g: Graph, t: Id, a: Addr, u: Id, i: nat, v: Id, j: nat)
    requires Newest(g, t) && u < v && ConflictAt(LinkNew(g, t, a), u, i, v, j)
    ensures if v == t && j == |g.info[t].depend| then Depends(g, u, i, a) && (IsOut(g, u, i) || |g.info[t].depend| < g.info[t].nout)
            else Conflict(g, u, v)
  {
    hide NewEdges, LinkBlockers, LinkedChain, Outs, Flags, AddEdges;
    if v != t || j != |g.info[t].depend| {
      assert ConflictAt(g, u, i, v, j);
    }
  }

  lemma LinkPaths(g: Graph, t: Id, a: Addr)
    requires Newest(g, t) && ChainsOk(g) && CoverOk(g) && PathsOk(g) && !Repeats(g, t, a)
    ensures PathsOk(LinkNew(g, t, a))
  {
    hide ChainsOk, LinkNew, ConflictAt, Covered, Path, Depends, IsOut, Edge, Repeats;
    LinkMono(g, t, a);
    var h := LinkNew(g, t, a);
    forall u: Id, v: Id | u < v && Siblings(h, u, v) && Conflict(h, u, v) ensures Path(h, u, v) {
      var i: nat, j: nat :| ConflictAt(h, u, i, v, j);
      LinkConflict(g, t, a, u, i, v, j);
      if v == t && j == |g.info[t].depend| {
        LinkPathTo(g, t, a, u, IsOut(g, u, i));
      } else {
        PathMono(g, h, u, v);
      }
    }
  }

  lemma LinkNewInv(g: Graph, t: Id, a: Addr)
    requires Inv(g) && Newest(g, t) && !Repeats(g, t, a)
    ensures Inv(LinkNew(g, t, a)) && Newest(LinkNew(g, t, a), t)
  {
    BlockersOlder(g, t, a);
    LinkEdges(g, t, a);
    LinkCounts(g, t, a);
    LinkChains(g, t, a);
    LinkFlags(g, t, a);
    LinkCover(g, t, a);
    LinkPaths(g, t, a);
    var h := LinkNew(g, t, a);
    assert ParentsLive(h) by {
      assert forall x: Id :: Live(h, x) <==> Live(g, x);
    }
  }

  // A repeated address changes nothing but the redundant flag: the first entry already conflicts at least as much.

  lemma RepeatConflict(g: Graph, t: Id, a: Addr, u: Id, v: Id)
    requires Newest(g, t) && ChainsOk(g) && Repeats(g, t, a)
    requires Conflict(LinkRepeat(g, t, a), u, v)
    requires u < v
    ensures Conflict(g, u, v)
  {
    var h := LinkRepeat(g, t, a);
    var i: nat, j: nat :| ConflictAt(h, u, i, v, j);
    if v == t && j == |g.info[t].depend| {
      var e := Chain(g, g.info[t].parent, a)[0];
      assert e in Chain(g, g.info[t].parent, a);
      assert ChainOk(g, g.info[t].parent, a, Chain(g, g.info[t].parent, a));
      assert ConflictAt(g, u, i, t, e.idx);
    } else {
      assert ConflictAt(g, u, i, v, j);
    }
  }

  lemma RepeatFlags(g: Graph, t: Id, a: Addr)
    requires Newest(g, t) && ChainsOk(g) && FlagsOk(g) && Repeats(g, t, a)
    ensures FlagsOk(LinkRepeat(g, t, a))
  {
    var h := LinkRepeat(g, t, a);
    var c := Chain(g, g.info[t].parent, a);
    assert ChainOk(g, g.info[t].parent, a, c);
    forall x: Id, i: nat | Pending(h, x) && i < |h.info[x].depend|
      ensures (x, i) !in h.redundant <==> Entry(x, i) in Chain(h, h.info[x].parent, h.info[x].depend[i])
    {
      if x == t && i == |g.info[t].depend| {
        assert (x, i) !in g.redundant;
        assert Entry(x, i) !in c;
      } else {
        assert Pending(g, x);
      }
    }
  }

  lemma RepeatCover(g: Graph, t: Id, a: Addr)
    requires Newest(g, t) && ChainsOk(g) && CoverOk(g) && Ordered(g) && Repeats(g, t, a)
    ensures CoverOk(LinkRepeat(g, t, a))
  {
    var h := LinkRepeat(g, t, a);
    forall x: Id, i: nat, b | Pending(h, x) && Depends(h, x, i, b)
      ensures Covered(h, x, b, Chain(h, h.info[x].parent, b), IsOut(h, x, i))
    {
      if x == t && i == |g.info[t].depend| {
        var e := Chain(g, g.info[t].parent, a)[0];
        assert e in Chain(g, g.info[t].parent, a);
        assert ChainOk(g, g.info[t].parent, a, Chain(g, g.info[t].parent, a));
      } else {
        assert Pending(g, x) && Depends(g, x, i, b);
        CoveredMono(g, h, x, b, Chain(g, g.info[x].parent, b), IsOut(g, x, i));
      }
    }
  }

  lemma RepeatEdges(g: Graph, t: Id, a: Addr)
    requires Newest(g, t) && EdgesOk(g) && CountsOk(g) && ChainsOk(g)
    ensures EdgesOk(LinkRepeat(g, t, a)) && CountsOk(LinkRepeat(g, t, a)) && ChainsOk(LinkRepeat(g, t, a))
  {
    var h := LinkRepeat(g, t, a);
    forall u: Id, v: Id | Edge(h, u, v) ensures u < v && Siblings(h, u, v) && Conflict(h, u, v) {
      assert Edge(g, u, v);
      ConflictKept(g, h, u, v);
    }
    forall v: Id | v < |h.info| ensures h.dependees[v] == |Preds(h, v)| {
      assert Preds(h, v) == Preds(g, v);
    }
    forall p: Id, b | (p, b) in h.chains ensures Chain(h, p, b) != [] && ChainOk(h, p, b, Chain(h, p, b)) {
      assert ChainOk(g, p, b, Chain(g, p, b));
    }
  }

  lemma LinkRepeatInv(g: Graph, t: Id, a: Addr)
    requires Inv(g) && Newest(g, t) && Repeats(g, t, a)
    ensures Inv(LinkRepeat(g, t, a)) && Newest(LinkRepeat(g, t, a), t)
  {
    RepeatEdges(g, t, a);
    RepeatFlags(g, t, a);
    RepeatCover(g, t, a);
    RepeatPaths(g, t, a);
    RepeatRest(g, t, a);
    hide LinkRepeat;
  }

  lemma RepeatRest(g: Graph, t: Id, a: Addr)
    requires Inv(g) && Newest(g, t)
    ensures var h := LinkRepeat(g, t, a); Shaped(h) && Ordered(h) && ParentsLive(h) && Newest(h, t)
  {
    hide EdgesOk, CountsOk, ChainsOk, FlagsOk, CoverOk, PathsOk;
    assert forall x: Id :: Live(LinkRepeat(g, t, a), x) <==> Live(g, x);
  }

  lemma RepeatPaths(g: Graph, t: Id, a: Addr)
    requires Inv(g) && Newest(g, t) && Repeats(g, t, a)
    ensures PathsOk(LinkRepeat(g, t, a))
  {
    hide Ordered, ParentsLive, EdgesOk, CountsOk, ChainsOk, FlagsOk, CoverOk, Path, Conflict, Repeats;
    var h := LinkRepeat(g, t, a);
    forall u: Id, v: Id | u < v && Siblings(h, u, v) && Conflict(h, u, v) ensures Path(h, u, v) {
      RepeatConflict(g, t, a, u, v);
      PathMono(g, h, u, v);
    }
  }

  /** What the depend loop leaves alone, and what it records. */
  ghost predicate Linked(g: Graph, h: Graph, t: Id, depend: seq<Addr>) {
    && Shaped(g) && Shaped(h) && |g.info| == |h.info| == t + 1 && h.done == g.done
    && h.info == g.info[t := g.info[t].(depend := g.info[t].depend + depend)]
    && (forall v: Id :: v < t ==> h.dependees[v] == g.dependees[v])
    && (forall u: Id :: u < t ==> h.dependers[u] == g.dependers[u] || (t !in g.dependers[u] && h.dependers[u] == g.dependers[u] + [t]))
    && h.dependers[t] == g.dependers[t]
  }

  lemma LinkDepInv(g: Graph, t: Id, a: Addr)
    requires Inv(g) && Newest(g, t)
    ensures Inv(LinkDep(g, t, a)) && Newest(LinkDep(g, t, a), t)
    ensures Linked(g, LinkDep(g, t, a), t, [a])
  {
    if Repeats(g, t, a) {
      LinkRepeatInv(g, t, a);
    } else {
      LinkNewInv(g, t, a);
      BlockersOlder(g, t, a);
    }
  }

  lemma {:induction false} LinkDepsInv(g: Graph, t: Id, depend: seq<Addr>)
    requires Inv(g) && Newest(g, t)
    ensures Inv(LinkDeps(g, t, depend)) && Newest(LinkDeps(g, t, depend), t)
    ensures Linked(g, LinkDeps(g, t, depend), t, depend)
    decreases |depend|
  {
    hide Inv, LinkDep;
    if depend == [] {
      assert g.info[t].depend + depend == g.info[t].depend;
    } else {
      var front, last := depend[..|depend| - 1], depend[|depend| - 1];
      LinkDepsInv(g, t, front);
      LinkStage(g, LinkDeps(g, t, front), t, front, last);
      assert front + [last] == depend;
    }
  }

  lemma LinkStage(g: Graph, m: Graph, t: Id, front: seq<Addr>, last: Addr)
    requires Inv(m) && Newest(m, t) && Linked(g, m, t, front)
    ensures Inv(LinkDep(m, t, last)) && Newest(LinkDep(m, t, last), t)
    ensures Linked(g, LinkDep(m, t, last), t, front + [last])
  {
    LinkDepInv(m, t, last);
    assert g.info[t].depend + front + [last] == g.info[t].depend + (front + [last]);
  }

  /** GOMP_task keeps the invariant, records the task and only ever adds edges into it. */
  lemma SpawnInv(g: Graph, p: Id, depend: seq<Addr>, nout: nat)
    requires Inv(g) && Live(g, p)
    ensures Inv(Spawn(g, p, depend, nout)) && Newest(Spawn(g, p, depend, nout), |g.info|)
    ensures Linked(Append(g, Info(p, [], nout, true)), Spawn(g, p, depend, nout), |g.info|, depend)
    ensures Spawn(g, p, depend, nout).info == g.info + [Info(p, depend, nout, true)]
  {
    hide Ordered, EdgesOk, CountsOk, ChainsOk, FlagsOk, CoverOk, PathsOk;
    AppendInv(g, Info(p, [], nout, true));
    hide Inv, LinkDeps;
    LinkDepsInv(Append(g, Info(p, [], nout, true)), |g.info|, depend);
    assert [] + depend == depend;
  }

  // ---------------------------------------------------------------------------------------------------
  // Ending a task

  /** Task t has run: nothing it waited for is left, and all its children have ended. */
  ghost predicate CanRetire(g: Graph, t: Id) {
    && Shaped(g) && Live(g, t) && g.info[t].parent < t && g.dependees[t] == 0
    && (forall c: Id :: Child(g, t, c) ==> c in g.done)
  }

  lemma NoPreds(g: Graph, t: Id)
    requires Shaped(g) && CountsOk(g) && t < |g.info| && g.dependees[t] == 0
    ensures forall u: Id :: !Edge(g, u, t)
  {
    assert Preds(g, t) == {};
    assert forall u: Id :: Edge(g, u, t) ==> u in Preds(g, t);
  }

  lemma RetireEdge(g: Graph, t: Id)
    requires Shaped(g) && t < |g.info|
    ensures forall u: Id, v: Id :: Edge(Retire(g, t), u, v) <==> Edge(g, u, v) && u != t
  {
  }

  /** A path between tasks that stay cannot run through a task nothing points to. */
  lemma RetirePath(g: Graph, t: Id, u: Id, v: Id)
    requires Shaped(g) && CountsOk(g) && t < |g.info| && g.dependees[t] == 0 && u != t && Path(g, u, v)
    ensures Path(Retire(g, t), u, v)
  {
    NoPreds(g, t);
    RetireEdge(g, t);
    var path :| IsPath(g, path, u, v);
    forall k | 0 <= k < |path| - 1 ensures Edge(Retire(g, t), path[k], path[k + 1]) {
      assert Edge(g, path[k], path[k + 1]);
      if k > 0 { assert Edge(g, path[k - 1], path[k]); }
    }
    assert IsPath(Retire(g, t), path, u, v);
  }

  lemma RetireEdges(g: Graph, t: Id)
    requires Shaped(g) && EdgesOk(g) && CountsOk(g) && t < |g.info| && g.dependees[t] == 0
    ensures EdgesOk(Retire(g, t))
  {
    var h := Retire(g, t);
    NoPreds(g, t);
    RetireEdge(g, t);
    forall u: Id, v: Id | Edge(h, u, v) ensures u < v && Siblings(h, u, v) && Conflict(h, u, v) {
      assert Edge(g, u, v);
      ConflictKept(g, h, u, v);
    }
  }

  lemma RetireCounts(g: Graph, t: Id)
    requires Shaped(g) && CountsOk(g) && t < |g.info|
    ensures CountsOk(Retire(g, t))
  {
    var h := Retire(g, t);
    RetireEdge(g, t);
    forall v: Id | v < |h.info| ensures h.dependees[v] == |Preds(h, v)| {
      assert forall u: Id :: u in Preds(g, v) <==> Edge(g, u, v);
      assert forall u: Id :: u in Preds(h, v) <==> Edge(h, u, v);
      assert Preds(h, v) == Preds(g, v) - {t};
      if Edge(g, t, v) {
        assert t in Preds(g, v);
      }
    }
  }

  lemma WithoutNewestFirst(c: seq<Entry>, t: Id)
    requires NewestFirst(c)
    ensures NewestFirst(Without(c, t))
  {
    if c != [] {
      WithoutNewestFirst(c[1..], t);
      var r := Without(c[1..], t);
      if c[0].task != t {
        assert Without(c, t) == [c[0]] + r;
        OlderThanHead(c);
        hide Without;
        NewerHead(c[0], r);
      }
    }
  }

  lemma OlderThanHead(c: seq<Entry>)
    requires c != [] && NewestFirst(c)
    ensures forall e :: e in c[1..] ==> e.task < c[0].task
  {
  }

  lemma NewerHead(e: Entry, r: seq<Entry>)
    requires NewestFirst(r) && forall f :: f in r ==> f.task < e.task
    ensures NewestFirst([e] + r)
  {
    forall j | 0 <= j < |r| ensures e.task > r[j].task { assert r[j] in r; }
  }

  lemma RetireChain(g: Graph, t: Id, p: Id, a: Addr)
    requires Shaped(g) && t < |g.info|
    ensures Chain(Retire(g, t), p, a) == Without(Chain(g, p, a), t)
    ensures (p, a) in Retire(g, t).chains ==> (p, a) in g.chains && Chain(Retire(g, t), p, a) != []
  {
  }

  lemma RetireMembers(g: Graph, t: Id, p: Id, a: Addr, c: seq<Entry>)
    requires Shaped(g) && t < |g.info| && Members(g, p, a, c)
    ensures Members(Retire(g, t), p, a, Without(c, t))
  {
    hide RetiredChains;
  }

  lemma RetireOneOut(g: Graph, t: Id, c: seq<Entry>)
    requires Shaped(g) && t < |g.info| && OneOut(g, c)
    ensures OneOut(Retire(g, t), Without(c, t))
  {
    hide RetiredChains;
  }

  lemma RetireChains(g: Graph, t: Id)
    requires Shaped(g) && ChainsOk(g) && t < |g.info|
    ensures ChainsOk(Retire(g, t))
  {
    hide Chain, Without, Retire, NewestFirst, Members, OneOut;
    var h := Retire(g, t);
    forall p: Id, a | (p, a) in h.chains ensures Chain(h, p, a) != [] && ChainOk(h, p, a, Chain(h, p, a)) {
      RetireChain(g, t, p, a);
      assert ChainOk(g, p, a, Chain(g, p, a));
      WithoutNewestFirst(Chain(g, p, a), t);
      RetireMembers(g, t, p, a, Chain(g, p, a));
      RetireOneOut(g, t, Chain(g, p, a));
    }
  }

  lemma RetireFlags(g: Graph, t: Id)
    requires Shaped(g) && FlagsOk(g) && t < |g.info|
    ensures FlagsOk(Retire(g, t))
  {
    var h := Retire(g, t);
    forall x: Id, i: nat | Pending(h, x) && i < |h.info[x].depend|
      ensures (x, i) !in h.redundant <==> Entry(x, i) in Chain(h, h.info[x].parent, h.info[x].depend[i])
    {
      assert Pending(g, x);
      RetireChain(g, t, g.info[x].parent, g.info[x].depend[i]);
    }
  }

  lemma RetireCover(g: Graph, t: Id)
    requires Shaped(g) && Ordered(g) && CountsOk(g) && CoverOk(g) && t < |g.info| && g.dependees[t] == 0
    ensures CoverOk(Retire(g, t))
  {
    var h := Retire(g, t);
    forall x: Id, i: nat, a | Pending(h, x) && Depends(h, x, i, a)
      ensures Covered(h, x, a, Chain(h, h.info[x].parent, a), IsOut(h, x, i))
    {
      var c := Chain(g, g.info[x].parent, a);
      RetireChain(g, t, g.info[x].parent, a);
      assert Pending(g, x) && Depends(g, x, i, a);
      assert Covered(g, x, a, c, IsOut(g, x, i));
      if e :| e in c && e.task == x && (IsOut(g, x, i) ==> EntryOut(g, e)) {
        assert e in Without(c, t) && EntryOut(h, e) == EntryOut(g, e);
      } else {
        var e :| e in c && EntryOut(g, e) && Path(g, x, e.task);
        RetirePath(g, t, x, e.task);
        var w := PathLast(g, x, e.task);
        NoPreds(g, t);
        assert e in Without(c, t) && EntryOut(h, e);
      }
    }
  }

  lemma RetirePaths(g: Graph, t: Id)
    requires Shaped(g) && CountsOk(g) && PathsOk(g) && t < |g.info| && g.dependees[t] == 0
    ensures PathsOk(Retire(g, t))
  {
    var h := Retire(g, t);
    forall u: Id, v: Id | u < v && Siblings(h, u, v) && Conflict(h, u, v) ensures Path(h, u, v) {
      assert Siblings(g, u, v);
      ConflictKept(h, g, u, v);
      RetirePath(g, t, u, v);
    }
  }

  /** The end of a task keeps the invariant. */
  lemma RetireInv(g: Graph, t: Id)
    requires Inv(g) && CanRetire(g, t)
    ensures Inv(Retire(g, t))
  {
    var h := Retire(g, t);
    RetireEdges(g, t);
    RetireCounts(g, t);
    RetireChains(g, t);
    RetireFlags(g, t);
    RetireCover(g, t);
    RetirePaths(g, t);
    forall x: Id | Live(h, x) ensures Live(h, h.info[x].parent) {
      assert Live(g, x);
      if g.info[x].parent == t { assert Child(g, t, x); }
    }
  }

  // ---------------------------------------------------------------------------------------------------
  // What the invariant gives

  /** Task t still has to wait for task u. */
  ghost predicate MustWaitFor(g: Graph, u: Id, t: Id) {
    u < t && Siblings(g, u, t) && Conflict(g, u, t)
  }

  /**
    The counter num_dependees is exact: a deferred task is free to run if and only if every earlier
    conflicting sibling has ended.
   */
  lemma ReadyIff(g: Graph, t: Id)
    requires Inv(g) && Pending(g, t)
    ensures g.dependees[t] == 0 <==> forall u: Id :: !MustWaitFor(g, u, t)
    ensures g.dependees[t] >= 0
  {
    if g.dependees[t] == 0 {
      NoPreds(g, t);
      forall u: Id | MustWaitFor(g, u, t) ensures false {
        var w := PathLast(g, u, t);
      }
    } else {
      assert |Preds(g, t)| != 0;
      var u :| u in Preds(g, t);
      assert Edge(g, u, t);
      assert MustWaitFor(g, u, t);
    }
  }

  /** The graph has no cycle: a path leads to a later task. */
  lemma {:induction false} PathForward(g: Graph, path: seq<Id>, u: Id, v: Id)
    requires Shaped(g) && EdgesOk(g) && IsPath(g, path, u, v)
    ensures u < v
    decreases |path|
  {
    assert Edge(g, path[0], path[1]);
    if |path| > 2 {
      var rest := path[1..];
      assert forall k {:trigger rest[k]} :: 0 <= k < |rest| - 1 ==> rest[k] == path[k + 1] && rest[k + 1] == path[k + 2] && Edge(g, path[k + 1], path[k + 2]);
      PathForward(g, rest, path[1], v);
    }
  }

  /** Behind every blocked task there is an unfinished sibling that is free to run or already running. */
  lemma {:induction false} BlockedHasRunnable(g: Graph, t: Id) returns (r: Id)
    requires Inv(g) && Pending(g, t) && g.dependees[t] != 0
    ensures r < t && Siblings(g, r, t) && g.dependees[r] == 0
    decreases t
  {
    var u :| u in Preds(g, t);
    assert Edge(g, u, t);
    if g.dependees[u] == 0 {
      r := u;
    } else {
      r := BlockedHasRunnable(g, u);
    }
  }

  /** Entry j of a depend clause conflicts with entry i of the unfinished deferred child u of p. */
  ghost predicate Clashes(g: Graph, p: Id, u: Id, i: nat, depend: seq<Addr>, nout: nat, j: int) {
    && Pending(g, u) && Child(g, p, u) && 0 <= j < |depend|
    && Depends(g, u, i, depend[j]) && (j < nout || IsOut(g, u, i))
  }

  /**
    The undeferred test is exact: GOMP_task falls back to deferring the task if and only if some unfinished
    deferred child of p conflicts with the depend clause.
   */
  lemma MustDeferIff(g: Graph, p: Id, depend: seq<Addr>, nout: nat)
    requires Inv(g)
    ensures MustDefer(g, p, depend, nout) <==> exists u: Id, i: nat, j :: Clashes(g, p, u, i, depend, nout, j)
  {
    if MustDefer(g, p, depend, nout) {
      var j, e :| Stops(g, p, depend, nout, j, e);
      assert ChainOk(g, p, depend[j], Chain(g, p, depend[j]));
      assert Clashes(g, p, e.task, e.idx, depend, nout, j);
    }
    if u: Id, i: nat, j :| Clashes(g, p, u, i, depend, nout, j) {
      var c := Chain(g, p, depend[j]);
      assert Covered(g, u, depend[j], c, IsOut(g, u, i));
      if e :| e in c && e.task == u && (IsOut(g, u, i) ==> EntryOut(g, e)) {
        assert Stops(g, p, depend, nout, j, e);
      } else {
        var e :| e in c && EntryOut(g, e) && Path(g, u, e.task);
        assert Stops(g, p, depend, nout, j, e);
      }
    }
  }
}
