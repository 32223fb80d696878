/** The team's task data as task.c updates it in place, operation by operation under task_lock. */
module TaskTeam {

  import opened Sequences
  import opened TaskGraph
  import opened TaskRings
  import opened TaskScheduler

  /** New edges are only ever appended, so t is in a vector if and only if it is its last element. */
  ghost predicate TailOnly(g: Graph, t: Id) {
    forall u: Id :: u < |g.dependers| && t in g.dependers[u] ==> g.dependers[u][|g.dependers[u]| - 1] == t
  }

  lemma BlockersStep(g: Graph, c: seq<Entry>, j: nat, isIn: bool)
    requires j < |c|
    ensures Blockers(g, c[..j + 1], isIn) == Blockers(g, c[..j], isIn) + if !isIn || EntryOut(g, c[j]) then {c[j].task} else {}
  {
    assert c[..j + 1] == c[..j] + [c[j]];
    forall u ensures u in Blockers(g, c[..j + 1], isIn) <==>
                     u in Blockers(g, c[..j], isIn) || (u == c[j].task && (!isIn || EntryOut(g, c[j])))
    {
      if u in Blockers(g, c[..j + 1], isIn) {
        var e :| e in c[..j + 1] && (!isIn || EntryOut(g, e)) && e.task == u;
        assert e in c[..j] || e == c[j];
      }
      if u in Blockers(g, c[..j], isIn) {
        var e :| e in c[..j] && (!isIn || EntryOut(g, e)) && e.task == u;
        assert e in c[..j + 1];
      }
      if u == c[j].task && (!isIn || EntryOut(g, c[j])) {
        assert c[j] in c[..j + 1];
      }
    }
  }

  lemma BlockersFresh(g: Graph, c: seq<Entry>, j: nat, isIn: bool)
    requires j < |c| && NewestFirst(c)
    ensures c[j].task !in Blockers(g, c[..j], isIn)
  {
  }

  lemma OutUnique(g: Graph, c: seq<Entry>, i: int, j: nat)
    requires NewestFirst(c) && OneOut(g, c) && i < j < |c|
    ensures 0 <= i && EntryOut(g, c[i]) ==> !EntryOut(g, c[j])
  {
    if 0 <= i {
      assert c[i] in c && c[j] in c && c[i].task > c[j].task;
    }
  }

  lemma Tail(g: Graph, u: Id, t: Id)
    requires TailOnly(g, t) && u < |g.dependers|
    ensures t in g.dependers[u] <==> g.dependers[u] != [] && g.dependers[u][|g.dependers[u]| - 1] == t
  {
  }

  lemma EdgeStep(g: Graph, us: set<Id>, u: Id, t: Id)
    requires u !in us && u < |g.dependers|
    ensures AddEdges(g, us, t)[u] == g.dependers[u]
    ensures AddEdges(g, us + {u}, t) == AddEdges(g, us, t)[u := if t in g.dependers[u] then g.dependers[u] else g.dependers[u] + [t]]
    ensures NewEdges(g, us + {u}, t) == NewEdges(g, us, t) + if t in g.dependers[u] then {} else {u}
    ensures |NewEdges(g, us + {u}, t)| == |NewEdges(g, us, t)| + if t in g.dependers[u] then 0 else 1
  {
    assert NewEdges(g, us + {u}, t) == NewEdges(g, us, t) + if t in g.dependers[u] then {} else {u};
  }

  lemma DropOutsNone(g: Graph, c: seq<Entry>)
    requires forall k :: 0 <= k < |c| ==> !EntryOut(g, c[k])
    ensures DropOuts(g, c) == c && Outs(g, c) == {}
  {
  }

  lemma DropOutsAppend(g: Graph, a: seq<Entry>, b: seq<Entry>)
    ensures DropOuts(g, a + b) == DropOuts(g, a) + DropOuts(g, b)
  {
    if a == [] {
      assert a + b == b;
    } else {
      assert (a + b)[0] == a[0] && (a + b)[1..] == a[1..] + b;
      DropOutsAppend(g, a[1..], b);
    }
  }

  lemma DropOutsBetween(g: Graph, a: seq<Entry>, e: Entry, b: seq<Entry>)
    requires EntryOut(g, e) && DropOuts(g, a) == a && DropOuts(g, b) == b
    ensures DropOuts(g, a + ([e] + b)) == a + b
  {
    assert DropOuts(g, [e]) == [];
    hide DropOuts, EntryOut;
    DropOutsAppend(g, a, [e] + b);
    DropOutsAppend(g, [e], b);
  }

  lemma DropOutsOne(g: Graph, c: seq<Entry>, o: nat)
    requires o < |c| && EntryOut(g, c[o]) && forall k :: 0 <= k < |c| && k != o ==> !EntryOut(g, c[k])
    ensures DropOuts(g, c) == c[..o] + c[o + 1..] && Outs(g, c) == {c[o]}
  {
    hide DropOuts, Outs, EntryOut;
    OutsOne(g, c, o);
    var a, b := c[..o], c[o + 1..];
    DropOutsNone(g, a);
    DropOutsNone(g, b);
    DropOutsBetween(g, a, c[o], b);
    assert c == a + ([c[o]] + b);
  }

  lemma OutsOne(g: Graph, c: seq<Entry>, o: nat)
    requires o < |c| && EntryOut(g, c[o]) && forall k :: 0 <= k < |c| && k != o ==> !EntryOut(g, c[k])
    ensures Outs(g, c) == {c[o]}
  {
    assert c[o] in c;
  }

  /** One more chain entry: what happens to the vectors and to the count of t. */
  lemma WaitStep(g: Graph, c: seq<Entry>, j: nat, isIn: bool, t: Id)
    requires j < |c| && NewestFirst(c) && c[j].task < |g.dependers| && TailOnly(g, t)
    ensures var b0, b1, u := Blockers(g, c[..j], isIn), Blockers(g, c[..j + 1], isIn), c[j].task;
            var vec := AddEdges(g, b0, t)[u];
            if isIn && !EntryOut(g, c[j]) then b1 == b0
            else if vec != [] && vec[|vec| - 1] == t then AddEdges(g, b1, t) == AddEdges(g, b0, t) && |NewEdges(g, b1, t)| == |NewEdges(g, b0, t)|
            else AddEdges(g, b1, t) == AddEdges(g, b0, t)[u := vec + [t]] && |NewEdges(g, b1, t)| == |NewEdges(g, b0, t)| + 1
  {
    hide Blockers, AddEdges, NewEdges, TailOnly, NewestFirst, EntryOut;
    BlockersStep(g, c, j, isIn);
    BlockersFresh(g, c, j, isIn);
    EdgeStep(g, Blockers(g, c[..j], isIn), c[j].task, t);
    Tail(g, c[j].task, t);
  }

  lemma WaitNone(g: Graph, c: seq<Entry>, isIn: bool, t: Id)
    requires t < |g.dependees|
    ensures AddEdges(g, Blockers(g, c[..0], isIn), t) == g.dependers && |NewEdges(g, Blockers(g, c[..0], isIn), t)| == 0
    ensures g.dependees[t := g.dependees[t] + 0] == g.dependees
  {
    assert c[..0] == [];
    assert NewEdges(g, Blockers(g, c[..0], isIn), t) == {};
  }

  lemma EntryKind(g: Graph, e: Entry)
    requires e.task < |g.info|
    ensures EntryOut(g, e) <==> e.idx < g.info[e.task].nout
  {
  }

  /** The position of the chain's only out entry, or -1. */
  ghost predicate OutAt(g: Graph, c: seq<Entry>, out: int) {
    -1 <= out < |c| && forall k :: 0 <= k < |c| ==> (EntryOut(g, c[k]) <==> k == out)
  }

  lemma OutsAt(g: Graph, c: seq<Entry>, out: int)
    requires OutAt(g, c, out)
    ensures DropOuts(g, c) == if out >= 0 then c[..out] + c[out + 1..] else c
    ensures Flags(Outs(g, c)) == if out >= 0 then {(c[out].task, c[out].idx)} else {}
  {
    hide DropOuts, Outs, Flags, EntryOut;
    if out >= 0 {
      DropOutsOne(g, c, out);
      FlagsOfFew(Outs(g, c), c[out]);
    } else {
      DropOutsNone(g, c);
      FlagsOfNone();
    }
  }

  /** LinkNew in terms of the position of the chain's out entry. */
  lemma LinkNewIs(g: Graph, t: Id, a: Addr, out: int)
    requires Shaped(g) && t < |g.info| && OutAt(g, Chain(g, g.info[t].parent, a), out)
    ensures var slot, i := Chain(g, g.info[t].parent, a), |g.info[t].depend|;
            var drop := i < g.info[t].nout && out >= 0;
            LinkNew(g, t, a) == Record(g, t, a).(
              dependers := AddEdges(g, Blockers(g, slot, i >= g.info[t].nout), t),
              dependees := g.dependees[t := g.dependees[t] + |NewEdges(g, Blockers(g, slot, i >= g.info[t].nout), t)|],
              chains := g.chains[(g.info[t].parent, a) := [Entry(t, i)] + if drop then slot[..out] + slot[out + 1..] else slot],
              redundant := if drop then g.redundant + {(slot[out].task, slot[out].idx)} else g.redundant)
  {
    hide AddEdges, NewEdges, Blockers, DropOuts, Outs, Flags, EntryOut, Chain;
    OutsAt(g, Chain(g, g.info[t].parent, a), out);
    FlagsOfNone();
    assert g.redundant + {} == g.redundant;
  }

  lemma FlagsOfNone()
    ensures Flags({}) == {}
  {
  }

  lemma FlagsOfFew(es: set<Entry>, e: Entry)
    requires es == {e}
    ensures Flags(es) == {(e.task, e.idx)}
  {
  }

  lemma SlotFacts(g: Graph, t: Id, a: Addr)
    requires Newest(g, t) && ChainsOk(g) && !Repeats(g, t, a)
    ensures var slot := Chain(g, g.info[t].parent, a);
            NewestFirst(slot) && OneOut(g, slot) && forall k :: 0 <= k < |slot| ==> slot[k].task < |g.info|
  {
    var slot := Chain(g, g.info[t].parent, a);
    BlockersOlder(g, t, a);
    assert slot != [] ==> ChainOk(g, g.info[t].parent, a, slot);
    assert forall k :: 0 <= k < |slot| ==> slot[k] in slot;
  }

  // The depend loop as a whole.

  lemma TailKept(g: Graph, t: Id, a: Addr)
    requires Shaped(g) && t < |g.info| && TailOnly(g, t)
    ensures TailOnly(LinkDep(g, t, a), t)
  {
  }

  lemma LinkedPrefix(g: Graph, t: Id, depend: seq<Addr>, i: nat)
    requires Inv(g) && Newest(g, t) && i < |depend|
    ensures var m := LinkDeps(g, t, depend[..i]); Inv(m) && Newest(m, t) && LinkDeps(g, t, depend[..i + 1]) == LinkDep(m, t, depend[i])
  {
    LinkDepsInv(g, t, depend[..i]);
    var more := depend[..i + 1];
    assert more[..i] == depend[..i] && more[i] == depend[i];
  }

  lemma FreshTail(g: Graph, p: Id, nout: nat)
    requires Inv(g) && Live(g, p)
    ensures var h := Append(g, Info(p, [], nout, true)); Inv(h) && Newest(h, |g.info|) && TailOnly(h, |g.info|)
  {
    AppendInv(g, Info(p, [], nout, true));
    forall u: Id | u < |g.info| ensures |g.info| !in g.dependers[u] {
      assert Edge(g, u, |g.info|) ==> |g.info| < |g.info|;
    }
  }

  // Unlinking the entries of a task one by one.

  /** The chain without the first n entries of task t. */
  function Trim(c: seq<Entry>, t: Id, n: nat): seq<Entry> {
    if c == [] then []
    else if c[0].task == t && c[0].idx < n then Trim(c[1..], t, n)
    else [c[0]] + Trim(c[1..], t, n)
  }

  lemma TrimZero(c: seq<Entry>, t: Id)
    ensures Trim(c, t, 0) == c
  {
  }

  lemma TrimStep(c: seq<Entry>, t: Id, n: nat)
    ensures Trim(c, t, n + 1) == Minus(Trim(c, t, n), Entry(t, n))
  {
    if c != [] {
      TrimStep(c[1..], t, n);
    }
  }

  lemma TrimAbsent(c: seq<Entry>, t: Id, n: nat)
    requires Entry(t, n) !in c
    ensures Trim(c, t, n + 1) == Trim(c, t, n)
  {
    if c != [] {
      assert c[0] in c && c[0] == Entry(c[0].task, c[0].idx);
      TrimAbsent(c[1..], t, n);
    }
  }

  lemma TrimAll(c: seq<Entry>, t: Id, n: nat)
    requires forall k :: 0 <= k < |c| && c[k].task == t ==> c[k].idx < n
    ensures Trim(c, t, n) == Without(c, t)
  {
  }

  /** The hash table after the first n entries of t are unlinked. */
  function Trimmed(chains: map<(Id, Addr), seq<Entry>>, t: Id, n: nat): map<(Id, Addr), seq<Entry>> {
    map k | k in chains && Trim(chains[k], t, n) != [] :: Trim(chains[k], t, n)
  }

  lemma TrimmedStart(g: Graph, t: Id)
    requires ChainsOk(g)
    ensures Trimmed(g.chains, t, 0) == g.chains
  {
    forall k | k in g.chains ensures Trim(g.chains[k], t, 0) == g.chains[k] && g.chains[k] != [] {
      TrimZero(g.chains[k], t);
      assert Chain(g, k.0, k.1) == g.chains[k];
    }
  }

  lemma TrimmedEnd(g: Graph, t: Id)
    requires ChainsOk(g) && t < |g.info|
    ensures Trimmed(g.chains, t, |g.info[t].depend|) == RetiredChains(g, t)
  {
    forall k | k in g.chains ensures Trim(g.chains[k], t, |g.info[t].depend|) == Without(g.chains[k], t) {
      var c := Chain(g, k.0, k.1);
      assert ChainOk(g, k.0, k.1, c);
      forall j | 0 <= j < |c| && c[j].task == t ensures c[j].idx < |g.info[t].depend| { assert c[j] in c; }
      TrimAll(c, t, |g.info[t].depend|);
    }
  }

  /** Entry n of t can only be in the chain of its own address, and only when it is not redundant. */
  lemma TrimElsewhere(g: Graph, t: Id, n: nat, k: (Id, Addr))
    requires ChainsOk(g) && FlagsOk(g) && Pending(g, t) && n < |g.info[t].depend| && k in g.chains
    requires k != (g.info[t].parent, g.info[t].depend[n]) || (t, n) in g.redundant
    ensures Trim(g.chains[k], t, n + 1) == Trim(g.chains[k], t, n)
  {
    var c := Chain(g, k.0, k.1);
    assert Members(g, k.0, k.1, c) by { assert ChainOk(g, k.0, k.1, c); }
    TrimAbsent(c, t, n);
  }

  lemma TrimmedSkip(g: Graph, t: Id, n: nat)
    requires ChainsOk(g) && FlagsOk(g) && Pending(g, t) && n < |g.info[t].depend| && (t, n) in g.redundant
    ensures Trimmed(g.chains, t, n + 1) == Trimmed(g.chains, t, n)
  {
    forall k | k in g.chains ensures Trim(g.chains[k], t, n + 1) == Trim(g.chains[k], t, n) {
      TrimElsewhere(g, t, n, k);
    }
  }

  lemma TrimmedUnlink(g: Graph, t: Id, n: nat)
    requires ChainsOk(g) && FlagsOk(g) && Pending(g, t) && n < |g.info[t].depend| && (t, n) !in g.redundant
    ensures var k, m := (g.info[t].parent, g.info[t].depend[n]), Trimmed(g.chains, t, n);
            k in m && Trimmed(g.chains, t, n + 1) ==
              if Minus(m[k], Entry(t, n)) == [] then m - {k} else m[k := Minus(m[k], Entry(t, n))]
  {
    hide ChainsOk, FlagsOk, Trim, Minus, Trimmed;
    var key := (g.info[t].parent, g.info[t].depend[n]);
    OwnChain(g, t, n);
    TrimKeeps(g.chains[key], t, n);
    TrimStep(g.chains[key], t, n);
    forall k | k in g.chains && k != key ensures Trim(g.chains[k], t, n + 1) == Trim(g.chains[k], t, n) {
      TrimElsewhere(g, t, n, k);
    }
    TrimmedOne(g.chains, t, n, key);
  }

  lemma OwnChain(g: Graph, t: Id, n: nat)
    requires ChainsOk(g) && FlagsOk(g) && Pending(g, t) && n < |g.info[t].depend| && (t, n) !in g.redundant
    ensures var k := (g.info[t].parent, g.info[t].depend[n]); k in g.chains && Entry(t, n) in g.chains[k]
  {
    assert Entry(t, n) in Chain(g, g.info[t].parent, g.info[t].depend[n]);
  }

  lemma TrimmedOne(chains: map<(Id, Addr), seq<Entry>>, t: Id, n: nat, key: (Id, Addr))
    requires key in chains && Trim(chains[key], t, n) != [] && Trim(chains[key], t, n + 1) == Minus(Trim(chains[key], t, n), Entry(t, n))
    requires forall k :: k in chains && k != key ==> Trim(chains[k], t, n + 1) == Trim(chains[k], t, n)
    ensures var m := Trimmed(chains, t, n);
            key in m && Trimmed(chains, t, n + 1) ==
              if Minus(m[key], Entry(t, n)) == [] then m - {key} else m[key := Minus(m[key], Entry(t, n))]
  {
    hide Trim, Minus;
  }

  lemma TrimKeeps(c: seq<Entry>, t: Id, n: nat)
    requires Entry(t, n) in c
    ensures Entry(t, n) in Trim(c, t, n)
  {
  }

  // Releasing the dependers one by one.

  lemma FreedAppend(d: seq<int>, a: seq<Id>, b: seq<Id>)
    ensures Freed(d, a + b) == Freed(d, a) + Freed(d, b)
  {
    if a == [] {
      assert a + b == b;
    } else {
      assert (a + b)[0] == a[0] && (a + b)[1..] == a[1..] + b;
      FreedAppend(d, a[1..], b);
    }
  }

  lemma FreedOne(d: seq<int>, a: seq<Id>, v: Id)
    ensures Freed(d, a + [v]) == Freed(d, a) + if v < |d| && d[v] == 1 then [v] else []
  {
    FreedAppend(d, a, [v]);
    assert Freed(d, [v][1..]) == [];
  }

  lemma Prefix<T>(vs: seq<T>, i: nat)
    requires i < |vs|
    ensures vs[..i + 1] == vs[..i] + [vs[i]]
  {
  }

  lemma FreedSnoc(d: seq<int>, vs: seq<Id>, i: nat)
    requires i < |vs|
    ensures Freed(d, vs[..i + 1]) == Freed(d, vs[..i]) + if vs[i] < |d| && d[vs[i]] == 1 then [vs[i]] else []
  {
    Prefix(vs, i);
    FreedOne(d, vs[..i], vs[i]);
  }

  function Decremented(d: seq<int>, vs: seq<Id>): (r: seq<int>)
    ensures |r| == |d|
  {
    seq(|d|, v requires 0 <= v < |d| => if v in vs then d[v] - 1 else d[v])
  }

  lemma DecrementedStep(d: seq<int>, vs: seq<Id>, i: nat)
    requires i < |vs| && vs[i] < |d| && NoRepeats(vs)
    ensures Decremented(d, vs[..i])[vs[i]] == d[vs[i]]
    ensures Decremented(d, vs[..i + 1]) == Decremented(d, vs[..i])[vs[i] := d[vs[i]] - 1]
  {
    assert vs[..i + 1] == vs[..i] + [vs[i]];
    assert vs[i] !in vs[..i];
  }

  /** The state after the first dependers of c have been released. */
  function Released(s: State, p: Id, vs: seq<Id>): State
    requires p < |s.children| && p < |s.sem|
  {
    var ready := Freed(s.g.dependees, vs);
    var s1 := s.(g := s.g.(dependees := Decremented(s.g.dependees, vs)),
                 children := s.children[p := Reverse(ready) + s.children[p]], queue := s.queue + ready,
                 taskCount := s.taskCount + |ready|, queuedCount := s.queuedCount + |ready|);
    if ready != [] then Signal(s1, p) else s1
  }

  function CountDown(s: State, v: Id, p: Id): State
    requires v < |s.g.dependees| && p < |s.children| && p < |s.sem|
  {
    var r := s.(g := s.g.(dependees := s.g.dependees[v := s.g.dependees[v] - 1]));
    if r.g.dependees[v] != 0 then r else Signal(Enqueue(r, v, p), p)
  }

  lemma ReleasedNone(s: State, p: Id)
    requires p < |s.children| && p < |s.sem|
    ensures Released(s, p, []) == s
  {
    assert Decremented(s.g.dependees, []) == s.g.dependees;
    assert Reverse<Id>([]) + s.children[p] == s.children[p];
    assert s.queue + [] == s.queue;
  }

  lemma ReleasedStep(s: State, p: Id, vs: seq<Id>, i: nat)
    requires p < |s.children| && p < |s.sem| && i < |vs| && vs[i] < |s.g.dependees| && NoRepeats(vs)
    ensures var r, v := Released(s, p, vs[..i]), vs[i];
            && |r.children| == |s.children| && |r.sem| == |s.sem| && |r.g.dependees| == |s.g.dependees|
            && r.g.dependees[v] == s.g.dependees[v]
            && Released(s, p, vs[..i + 1]) == CountDown(r, v, p)
  {
    hide Freed, Decremented, Reverse, NoRepeats;
    DecrementedStep(s.g.dependees, vs, i);
    FreedSnoc(s.g.dependees, vs, i);
    if s.g.dependees[vs[i]] == 1 {
      ReleasedMore(s, p, vs, i);
    } else {
      assert Freed(s.g.dependees, vs[..i]) + [] == Freed(s.g.dependees, vs[..i]);
    }
  }

  lemma ReleasedMore(s: State, p: Id, vs: seq<Id>, i: nat)
    requires p < |s.children| && p < |s.sem| && i < |vs| && vs[i] < |s.g.dependees|
    requires s.g.dependees[vs[i]] == 1 && Decremented(s.g.dependees, vs[..i])[vs[i]] == 1
    requires Decremented(s.g.dependees, vs[..i + 1]) == Decremented(s.g.dependees, vs[..i])[vs[i] := 0]
    requires Freed(s.g.dependees, vs[..i + 1]) == Freed(s.g.dependees, vs[..i]) + [vs[i]]
    ensures var r := Released(s, p, vs[..i]);
            |r.children| == |s.children| && |r.sem| == |s.sem| && Released(s, p, vs[..i + 1]) == CountDown(r, vs[i], p)
  {
    hide Freed, Decremented, Reverse;
    var ready, v := Freed(s.g.dependees, vs[..i]), vs[i];
    ReverseCons(ready, v);
    PushTwice(s.children, p, v, Reverse(ready), s.children[p]);
    assert s.queue + ready + [v] == s.queue + (ready + [v]);
  }

  lemma ReleasedAll(s: State, c: Id)
    requires Shape(s) && c < |s.g.info| && s.g.info[c].parent < |s.g.info|
    ensures HandleDepend(s, c) == Released(s, s.g.info[c].parent, s.g.dependers[c]).(g := Retire(s.g, c))
    ensures Retire(s.g, c) == Released(s, s.g.info[c].parent, s.g.dependers[c]).g.(
              done := s.g.done + {c}, dependers := s.g.dependers[c := []], chains := RetiredChains(s.g, c))
  {
    assert Retire(s.g, c).dependees == Decremented(s.g.dependees, s.g.dependers[c]);
    hide Freed, Decremented, Reverse, RetiredChains;
  }

  /** What the end of c changes, in the order in which it is done. */
  lemma HandledParts(s: State, c: Id)
    requires Shape(s) && c < |s.g.info| && s.g.info[c].parent < |s.g.info|
    ensures |s.children| == |s.sem| == |s.g.info| == |s.g.dependers|
    ensures var s1 := s.(g := s.g.(chains := RetiredChains(s.g, c)));
            Shape(s1) && var r := Released(s1, s.g.info[c].parent, s.g.dependers[c]);
            && r.g.info == s.g.info && r.g.dependers == s.g.dependers && r.g.done == s.g.done
            && HandleDepend(s, c) == r.(g := r.g.(done := s.g.done + {c}, dependers := s.g.dependers[c := []]))
  {
    hide Released, Retire, RetiredChains, HandleDepend;
    ReleasedAll(s, c);
    ReleasedChains(s, s.g.info[c].parent, s.g.dependers[c], RetiredChains(s.g, c));
  }

  /** Releasing does not look at the hash table. */
  lemma ReleasedChains(s: State, p: Id, vs: seq<Id>, chains: map<(Id, Addr), seq<Entry>>)
    requires p < |s.children| && p < |s.sem|
    ensures var r := Released(s, p, vs);
            Released(s.(g := s.g.(chains := chains)), p, vs) == r.(g := r.g.(chains := chains))
    ensures var r := Released(s, p, vs).g; r.info == s.g.info && r.done == s.g.done && r.dependers == s.g.dependers
  {
    hide Freed, Decremented, Reverse;
  }

  lemma ReverseCons(ready: seq<Id>, v: Id)
    ensures Reverse(ready + [v]) == [v] + Reverse(ready)
  {
  }

  lemma PushTwice(children: seq<seq<Id>>, p: Id, v: Id, a: seq<Id>, b: seq<Id>)
    requires p < |children|
    ensures children[p := a + b][p := [v] + (a + b)] == children[p := ([v] + a) + b]
  {
    assert [v] + (a + b) == ([v] + a) + b;
  }

  class Team {
    var nthreads: nat
    var info: seq<Info>
    ghost var done: set<Id>                      // freed tasks
    var dependers: seq<seq<Id>>
    var numDependees: seq<int>
    var dependHash: map<(Id, Addr), seq<Entry>>  // the depend_hash of every parent
    var redundant: set<(Id, nat)>
    var kind: seq<Kind>
    var nextChild: seq<Id>
    var prevChild: seq<Id>
    var childHead: seq<int>                      // the children of every task
    var nextQueue: seq<Id>
    var prevQueue: seq<Id>
    var queueHead: int                           // task_queue
    ghost var children: seq<seq<Id>>             // the rings that the links form
    ghost var taskQueue: seq<Id>
    var taskCount: int
    var taskQueuedCount: int
    var inTaskwait: set<Id>
    var taskwaitSem: seq<int>
    var phase: seq<Phase>
    var arrived: nat
    var waitingForTasks: bool
    var epoch: nat

    ghost function Deps(): (r: Graph)
      reads this
    {
      Graph(info, done, dependers, numDependees, dependHash, redundant)
    }

    ghost function View(): (r: State)
      reads this
    {
      State(nthreads, Deps(), kind, children, taskQueue, taskCount, taskQueuedCount, inTaskwait, taskwaitSem, phase,
            arrived, waitingForTasks, epoch)
    }

    /** The links form the rings. */
    ghost predicate Linked()
      reads this`nextChild, this`prevChild, this`childHead, this`children
      reads this`nextQueue, this`prevQueue, this`queueHead, this`taskQueue
    {
      && AreRings(nextChild, prevChild, childHead, children) && IsRing(nextQueue, prevQueue, queueHead, taskQueue)
      && |nextChild| == |nextQueue| == |childHead|
    }

    /** Every task has links, and they lead from its head pointer to its first child and from the queue's to the first task. */
    lemma Heads(p: Id)
      requires Linked() && p < |children|
      ensures |childHead| == |children| && childHead[p] == if children[p] == [] then NULL else children[p][0]
      ensures queueHead == if taskQueue == [] then NULL else taskQueue[0]
    {
    }

    lemma Counted()
      requires Linked()
      ensures |childHead| == |children|
    {
    }

    /** A team whose implicit tasks have just started. */
    constructor (n: nat)
      ensures View() == Init(n) && Linked()
    {
      nthreads := n;
      info, done := seq(n, t requires 0 <= t => Info(t, [], 0, false)), {};
      dependers, numDependees, dependHash, redundant := seq(n, t => []), seq(n, t => 0), map[], {};
      kind, phase, taskwaitSem := seq(n, t => Implicit), seq(n, t => Running), seq(n, t => 0);
      nextChild, prevChild, childHead := seq(n, t => 0), seq(n, t => 0), seq(n, t => NULL);
      nextQueue, prevQueue, queueHead := seq(n, t => 0), seq(n, t => 0), NULL;
      children, taskQueue := seq(n, t => []), [];
      taskCount, taskQueuedCount, inTaskwait := 0, 0, {};
      arrived, waitingForTasks, epoch := 0, false, 0;
    }

    /** A task is linked in as the first child of p. */
    method InsertChild(t: Id, p: Id)
      requires Linked() && t < |childHead| && p < |childHead| && InNone(children, t)
      modifies this`nextChild, this`prevChild, this`childHead, this`children
      ensures Linked() && |childHead| == |old(childHead)| && children == old(children)[p := [t] + old(children)[p]]
    {
      ghost var ring := children[p];
      RingOf(nextChild, prevChild, childHead, children, p);
      hide IsRing, AreRings;
      if childHead[p] != NULL {
        LinkBefore(nextChild, prevChild, childHead[p], ring, t);
        var head: nat := childHead[p];
        nextChild := nextChild[t := head];
        prevChild := prevChild[t := prevChild[head]];
        prevChild := prevChild[nextChild[t] := t];
        nextChild := nextChild[prevChild[t] := t];
      } else {
        LinkAlone(nextChild, prevChild, t);
        nextChild := nextChild[t := t];
        prevChild := prevChild[t := t];
      }
      PushedRing(old(nextChild), old(prevChild), childHead, children, p, t, nextChild, prevChild);
      childHead := childHead[p := t];
      children := children[p := [t] + ring];
    }

    /** A task is linked in as the last one of the queue. */
    method InsertQueue(t: Id)
      requires Linked() && t < |childHead| && t !in taskQueue
      modifies this`nextQueue, this`prevQueue, this`queueHead, this`taskQueue
      ensures Linked() && taskQueue == old(taskQueue) + [t]
    {
      HeadFacts(nextQueue, prevQueue, queueHead, taskQueue);
      hide IsRing, AreRings;
      if queueHead != NULL {
        LinkBefore(nextQueue, prevQueue, queueHead, taskQueue, t);
        var head: nat := queueHead;
        nextQueue := nextQueue[t := head];
        prevQueue := prevQueue[t := prevQueue[head]];
        prevQueue := prevQueue[nextQueue[t] := t];
        nextQueue := nextQueue[prevQueue[t] := t];
      } else {
        LinkAlone(nextQueue, prevQueue, t);
        nextQueue := nextQueue[t := t];
        prevQueue := prevQueue[t := t];
        queueHead := t;
        assert taskQueue + [t] == [t];
      }
      taskQueue := taskQueue + [t];
    }

    /** A task is unlinked from the queue. */
    method UnlinkQueue(c: Id)
      requires Linked() && c in taskQueue
      modifies this`nextQueue, this`prevQueue, this`queueHead, this`taskQueue
      ensures Linked() && taskQueue == Minus(old(taskQueue), c)
    {
      HeadFacts(nextQueue, prevQueue, queueHead, taskQueue);
      Unlink(nextQueue, prevQueue, queueHead, taskQueue, c);
      hide IsRing, AreRings, Minus;
      nextQueue := nextQueue[prevQueue[c] := nextQueue[c]];
      prevQueue := prevQueue[nextQueue[c] := prevQueue[c]];
      if queueHead == c {
        if nextQueue[c] != c {
          queueHead := nextQueue[c];
        } else {
          queueHead := NULL;
        }
      }
      taskQueue := Minus(taskQueue, c);
    }

    /** A task is unlinked from the children of p; emptied says that it was the last one. */
    method UnlinkChild(c: Id, p: Id) returns (emptied: bool)
      requires Linked() && p < |childHead| && p < |children| && c in children[p]
      modifies this`nextChild, this`prevChild, this`childHead, this`children
      ensures Linked() && children == old(children)[p := Minus(old(children)[p], c)]
      ensures emptied <==> children[p] == []
    {
      ghost var ring := children[p];
      RingOf(nextChild, prevChild, childHead, children, p);
      Unlink(nextChild, prevChild, childHead[p], ring, c);
      hide IsRing, AreRings, Minus, InNone;
      nextChild := nextChild[prevChild[c] := nextChild[c]];
      prevChild := prevChild[nextChild[c] := prevChild[c]];
      emptied := false;
      var head := childHead[p];
      if childHead[p] == c {
        if nextChild[c] != c {
          head := nextChild[c];
        } else {
          head := NULL;
          emptied := true;
        }
      }
      UnlinkedRing(old(nextChild), old(prevChild), childHead, children, p, c, nextChild, prevChild, head);
      childHead := childHead[p := head];
      children := children[p := Minus(ring, c)];
    }

    /** The test of GOMP_task before it runs a task at once. */
    method MustDeferTest(p: Id, depend: seq<Addr>, nout: nat) returns (found: bool)
      ensures found <==> MustDefer(Deps(), p, depend, nout)
    {
      found := false;
      var i := 0;
      while i < |depend|
        invariant 0 <= i <= |depend|
        invariant !found ==> forall i', e :: 0 <= i' < i ==> !Stops(Deps(), p, depend, nout, i', e)
        invariant found ==> MustDefer(Deps(), p, depend, nout)
      {
        var ent := if (p, depend[i]) in dependHash then dependHash[(p, depend[i])] else [];
        var j := 0;
        while j < |ent|
          invariant 0 <= j <= |ent|
          invariant !found ==> forall k :: 0 <= k < j ==> !Stops(Deps(), p, depend, nout, i, ent[k])
          invariant found ==> MustDefer(Deps(), p, depend, nout)
        {
          if !(i >= nout && !(ent[j].task < |info| && ent[j].idx < info[ent[j].task].nout)) {
            found := true;
            assert Stops(Deps(), p, depend, nout, i, ent[j]);
            return;
          }
          j := j + 1;
        }
        i := i + 1;
      }
    }

    /** Makes t wait for the entries of a chain; out is the position of the chain's out entry, or -1. */
    method WaitFor(t: Id, slot: seq<Entry>, isIn: bool) returns (out: int)
      requires Shaped(Deps()) && t < |info| && TailOnly(Deps(), t) && NewestFirst(slot) && OneOut(Deps(), slot)
      requires forall k :: 0 <= k < |slot| ==> slot[k].task < |info|
      modifies this`dependers, this`numDependees
      ensures dependers == AddEdges(old(Deps()), Blockers(old(Deps()), slot, isIn), t)
      ensures numDependees == old(numDependees)[t := old(numDependees)[t] + |NewEdges(old(Deps()), Blockers(old(Deps()), slot, isIn), t)|]
      ensures OutAt(old(Deps()), slot, out)
    {
      hide Blockers, AddEdges, NewEdges, NewestFirst, OneOut, TailOnly, EntryOut;
      ghost var g := Deps();
      out := -1;
      var j := 0;
      WaitNone(g, slot, isIn, t);
      while j < |slot|
        invariant 0 <= j <= |slot| && -1 <= out < j
        invariant dependers == AddEdges(g, Blockers(g, slot[..j], isIn), t)
        invariant numDependees == g.dependees[t := g.dependees[t] + |NewEdges(g, Blockers(g, slot[..j], isIn), t)|]
        invariant forall k :: 0 <= k < j ==> (EntryOut(g, slot[k]) <==> k == out)
      {
        var ent := slot[j];
        var entIn := ent.idx >= info[ent.task].nout;
        assert entIn == !EntryOut(g, ent) by { EntryKind(g, ent); }
        WaitStep(g, slot, j, isIn, t);
        if !(isIn && entIn) {
          var tsk := ent.task;
          var vec := dependers[tsk];
          if vec == [] || vec[|vec| - 1] != t {
            dependers := dependers[tsk := vec + [t]];
            numDependees := numDependees[t := numDependees[t] + 1];
          }
          if !entIn {
            OutUnique(g, slot, out, j);
            out := j;
          }
        }
        j := j + 1;
      }
      assert slot[..j] == slot;
    }

    /** One round of the depend loop of GOMP_task. */
    method AddDepend(t: Id, a: Addr)
      requires Newest(Deps(), t) && ChainsOk(Deps()) && TailOnly(Deps(), t)
      modifies this`info, this`dependers, this`numDependees, this`dependHash, this`redundant
      ensures Deps() == LinkDep(old(Deps()), t, a)
    {
      hide ChainsOk, ChainOk, NewestFirst, OneOut, TailOnly, Blockers, AddEdges, NewEdges, DropOuts, Outs, Flags;
      ghost var g := Deps();
      var i := |info[t].depend|;
      var isIn := i >= info[t].nout;
      var p := info[t].parent;
      var slot := if (p, a) in dependHash then dependHash[(p, a)] else [];
      if slot != [] && slot[0].task == t {
        info := info[t := info[t].(depend := info[t].depend + [a])];
        redundant := redundant + {(t, i)};
        return;
      }
      assert slot == Chain(g, p, a);
      SlotFacts(g, t, a);
      var out := WaitFor(t, slot, isIn);
      info := info[t := info[t].(depend := info[t].depend + [a])];
      var rest := slot;
      LinkNewIs(g, t, a, out);
      hide LinkNew;
      if !isIn && out >= 0 {
        rest := slot[..out] + slot[out + 1..];
        redundant := redundant + {(slot[out].task, slot[out].idx)};
      }
      dependHash := dependHash[(p, a) := [Entry(t, i)] + rest];
    }

    /** The depend loop of GOMP_task for the newest task t. */
    method AddDepends(t: Id, depend: seq<Addr>)
      requires Inv(Deps()) && Newest(Deps(), t) && TailOnly(Deps(), t)
      modifies this`info, this`dependers, this`numDependees, this`dependHash, this`redundant
      ensures Deps() == LinkDeps(old(Deps()), t, depend)
    {
      hide Inv, TailOnly;
      ghost var g := Deps();
      var i := 0;
      assert depend[..0] == [];
      while i < |depend|
        invariant 0 <= i <= |depend|
        invariant Deps() == LinkDeps(g, t, depend[..i]) && TailOnly(Deps(), t)
      {
        LinkedPrefix(g, t, depend, i);
        InvChains(Deps());
        TailKept(Deps(), t, depend[i]);
        AddDepend(t, depend[i]);
        i := i + 1;
      }
      assert depend[..i] == depend;
    }

    /** The dependence fields of a new task. */
    method InitDepends(p: Id, nout: nat)
      modifies this`info, this`dependers, this`numDependees
      ensures Deps() == Append(old(Deps()), Info(p, [], nout, true))
    {
      info := info + [Info(p, [], nout, true)];
      dependers := dependers + [[]];
      numDependees := numDependees + [0];
    }

    /** The links of a new task, which is in no ring yet. */
    method InitLinks()
      requires Linked()
      modifies this`nextChild, this`prevChild, this`childHead, this`children, this`nextQueue, this`prevQueue
      ensures Linked() && |childHead| == |old(childHead)| + 1 && children == old(children) + [[]]
    {
      MoreRings(nextChild, prevChild, childHead, children);
      LongerRing(nextQueue, prevQueue, queueHead, taskQueue);
      hide IsRing, AreRings;
      nextChild, prevChild, childHead := nextChild + [0], prevChild + [0], childHead + [NULL];
      nextQueue, prevQueue := nextQueue + [0], prevQueue + [0];
      children := children + [[]];
    }

    /** gomp_init_task for a deferred task. */
    method InitTask(p: Id, nout: nat)
      requires Linked()
      modifies this
      ensures Linked() && |childHead| == |old(childHead)| + 1
      ensures View() == Extend(old(View()), Append(old(Deps()), Info(p, [], nout, true)), Waiting)
    {
      hide Append, Team.Linked;
      InitDepends(p, nout);
      InitLinks();
      kind := kind + [Waiting];
      taskwaitSem := taskwaitSem + [0];
      phase := phase + [Running];
    }

    /** A new task with its dependences, in no ring yet. */
    method MakeTask(p: Id, depend: seq<Addr>, nout: nat)
      requires Inv(Deps()) && Live(Deps(), p) && Linked()
      modifies this
      ensures View() == Extend(old(View()), Spawn(old(Deps()), p, depend, nout), Waiting)
      ensures Linked() && |childHead| == |old(childHead)| + 1
    {
      hide Inv, Live, Newest, TailOnly, LinkDeps, Append, Team.Linked;
      FreshTail(Deps(), p, nout);
      var t := |info|;
      InitTask(p, nout);
      AddDepends(t, depend);
    }

    /** GOMP_task, deferred branch. */
    method CreateTask(p: Id, depend: seq<Addr>, nout: nat)
      requires DataInv(View()) && MayCreate(View(), p) && Linked()
      modifies this
      ensures View() == Create(old(View()), p, depend, nout) && Linked()
    {
      hide Inv, DataInv, MayCreate, Live, Spawn, Team.Linked, InNone;
      CreateFacts(View(), p);
      Counted();
      var t := |info|;
      MakeTask(p, depend, nout);
      if numDependees[t] == 0 {
        Insert(t, p);
      }
    }

    /** Insertion at the head of the parent's ring and at the tail of the queue. */
    method Insert(t: Id, p: Id)
      requires Linked() && t < |childHead| && p < |childHead| && p < |children| && InNone(children, t) && t !in taskQueue
      modifies this`nextChild, this`prevChild, this`childHead, this`children
      modifies this`nextQueue, this`prevQueue, this`queueHead, this`taskQueue, this`taskCount, this`taskQueuedCount
      ensures View() == Enqueue(old(View()), t, p) && Linked()
    {
      hide Team.Linked, InNone;
      InsertChild(t, p);
      InsertQueue(t);
      taskCount := taskCount + 1;
      taskQueuedCount := taskQueuedCount + 1;
    }

    /** The parent's head pointer moves past its first child. */
    method PassHead(c: Id, p: Id)
      requires Linked() && p < |children|
      modifies this`childHead, this`children
      ensures Linked()
      ensures var ring := old(children)[p];
              children == if ring != [] && ring[0] == c then old(children)[p := ring[1..] + [c]] else old(children)
    {
      RingCount(nextChild, prevChild, childHead, children);
      RingOf(nextChild, prevChild, childHead, children, p);
      hide IsRing, AreRings;
      if childHead[p] == c {
        TurnedRing(nextChild, prevChild, childHead, children, p);
        childHead := childHead[p := nextChild[c]];
        children := children[p := children[p][1..] + [c]];
      }
    }

    /** The rest of gomp_task_run_pre: the task leaves the queue and is tied to its thread. */
    method TakeOff(c: Id)
      requires Linked() && c < |kind| && c in taskQueue
      modifies this`nextQueue, this`prevQueue, this`queueHead, this`taskQueue, this`kind, this`taskQueuedCount
      ensures Linked() && taskQueue == Minus(old(taskQueue), c) && kind == old(kind)[c := Tied] && taskQueuedCount == old(taskQueuedCount) - 1
    {
      hide Team.Linked, Minus;
      UnlinkQueue(c);
      kind := kind[c := Tied];
      taskQueuedCount := taskQueuedCount - 1;
    }

    /** gomp_task_run_pre. */
    method TaskRunPre(c: Id)
      requires Shape(View()) && c < |info| && info[c].parent < |info| && Linked() && c in taskQueue
      modifies this`childHead, this`children, this`nextQueue, this`prevQueue, this`queueHead, this`taskQueue, this`kind
      modifies this`taskQueuedCount
      ensures View() == RunPre(old(View()), c) && Linked()
    {
      hide Team.Linked, Minus;
      PassHead(c, info[c].parent);
      TakeOff(c);
    }

    /** Wakes the parent if it is blocked in GOMP_taskwait. */
    method PostTaskwait(p: Id)
      requires p < |taskwaitSem|
      modifies this`inTaskwait, this`taskwaitSem
      ensures View() == Signal(old(View()), p)
    {
      if p in inTaskwait {
        inTaskwait := inTaskwait - {p};
        taskwaitSem := taskwaitSem[p := taskwaitSem[p] + 1];
      }
    }

    /** gomp_task_run_post_handle_depend_hash: unlinks every entry of c that is still in a chain. */
    method HandleDependHash(c: Id)
      requires Shaped(Deps()) && ChainsOk(Deps()) && FlagsOk(Deps()) && Pending(Deps(), c)
      modifies this`dependHash
      ensures dependHash == RetiredChains(old(Deps()), c)
    {
      ghost var g := Deps();
      TrimmedStart(g, c);
      TrimmedEnd(g, c);
      hide ChainsOk, FlagsOk;
      var i := 0;
      while i < |info[c].depend|
        invariant 0 <= i <= |info[c].depend|
        invariant dependHash == Trimmed(g.chains, c, i)
      {
        if (c, i) in redundant {
          TrimmedSkip(g, c, i);
        } else {
          TrimmedUnlink(g, c, i);
          var key := (info[c].parent, info[c].depend[i]);
          var rest := Minus(dependHash[key], Entry(c, i));
          dependHash := if rest == [] then dependHash - {key} else dependHash[key := rest];
        }
        i := i + 1;
      }
    }

    /** gomp_task_run_post_remove_parent, or the copy in GOMP_taskwait. */
    method TaskRemoveParent(c: Id, signal: bool)
      requires Shape(View()) && c < |info| && info[c].parent < |info| && Linked() && c in children[info[c].parent]
      modifies this`nextChild, this`prevChild, this`childHead, this`children, this`inTaskwait, this`taskwaitSem
      ensures View() == RemoveParent(old(View()), c, signal) && Linked()
    {
      hide Team.Linked, Minus;
      Counted();
      var p := info[c].parent;
      var emptied := UnlinkChild(c, p);
      if emptied && signal {
        PostTaskwait(p);
      }
    }

    /** One depender of a finished task: counted down and, if free, inserted. */
    method ReleaseOne(task: Id, p: Id)
      requires task < |numDependees| && p < |children| && p < |taskwaitSem|
      requires Linked() && task < |childHead| && p < |childHead| && InNone(children, task) && task !in taskQueue
      modifies this`numDependees, this`nextChild, this`prevChild, this`childHead, this`children
      modifies this`nextQueue, this`prevQueue, this`queueHead, this`taskQueue, this`taskCount, this`taskQueuedCount
      modifies this`inTaskwait, this`taskwaitSem
      ensures View() == CountDown(old(View()), task, p) && Linked() && |childHead| == |old(childHead)|
      ensures KeepsOut(old(children), old(taskQueue), children, taskQueue, task)
    {
      hide IsRing, AreRings;
      RingCount(nextChild, prevChild, childHead, children);
      numDependees := numDependees[task := numDependees[task] - 1];
      if numDependees[task] == 0 {
        Insert(task, p);
        PostTaskwait(p);
      }
      RingCount(nextChild, prevChild, childHead, children);
    }

    /** gomp_task_run_post_handle_dependers: the loop over the dependers of c. */
    method HandleDependers(c: Id)
      requires Shape(View()) && c < |info| && info[c].parent < |info| && Linked()
      requires NoRepeats(dependers[c]) && Outside(|info|, children, taskQueue, dependers[c], 0)
      modifies this`numDependees, this`nextChild, this`prevChild, this`childHead, this`children
      modifies this`nextQueue, this`prevQueue, this`queueHead, this`taskQueue, this`taskCount, this`taskQueuedCount
      modifies this`inTaskwait, this`taskwaitSem
      ensures View() == Released(old(View()), info[c].parent, dependers[c]) && Linked()
    {
      hide Released, Freed, CountDown, Team.Linked, InNone, Outside, KeepsOut, NoRepeats;
      Counted();
      ghost var s := View();
      var p := info[c].parent;
      var vs := dependers[c];
      var i := 0;
      assert vs[..0] == [];
      ReleasedNone(s, p);
      while i < |vs|
        invariant 0 <= i <= |vs| && Linked() && |childHead| == |info|
        invariant View() == Released(s, p, vs[..i]) && Outside(|info|, children, taskQueue, vs, i)
      {
        ghost var rings, queue := children, taskQueue;
        OutsideHead(|info|, rings, queue, vs, i);
        ReleasedStep(s, p, vs, i);
        ReleaseOne(vs[i], p);
        OutsideRest(|info|, rings, queue, children, taskQueue, vs, i);
        i := i + 1;
      }
      assert vs[..i] == vs;
    }

    /** gomp_task_run_post_handle_depend. */
    method TaskHandleDepend(c: Id)
      requires Shape(View()) && ChainsOk(Deps()) && FlagsOk(Deps()) && EdgesOk(Deps()) && Pending(Deps(), c) && info[c].parent < |info|
      requires Outside(|info|, children, taskQueue, dependers[c], 0) && Linked()
      modifies this
      ensures View() == HandleDepend(old(View()), c) && Linked()
    {
      hide Released, RetiredChains, ChainsOk, FlagsOk, EdgesOk, HandleDepend, Team.Linked, Outside;
      HandledParts(View(), c);
      VectorFacts(Deps(), c);
      HandleDependHash(c);
      HandleDependers(c);
      ClearVector(c);
    }

    /** The vector of a task is freed with the task. */
    method ClearVector(c: Id)
      requires c < |dependers|
      modifies this`dependers, this`done
      ensures View() == old(View()).(g := old(Deps()).(done := old(done) + {c}, dependers := old(dependers)[c := []]))
    {
      dependers := dependers[c := []];
      done := done + {c};
    }

    /** What a thread does under task_lock when the deferred task c has run. */
    method TaskFinish(c: Id, signal: bool)
      requires DataInv(View()) && MayFinish(View(), c) && Linked()
      modifies this
      ensures c < |old(info)| && old(info)[c].parent < c && View() == Finish(old(View()), c, signal) && Linked()
    {
      hide DataInv, MayFinish, ChainsOk, FlagsOk, EdgesOk, HandleDepend, RemoveParent, Team.Linked, Outside;
      FinishFacts(View(), c);
      DependersFree(View(), c);
      StillChild(View(), c);
      TaskHandleDepend(c);
      TaskRemoveParent(c, signal);
      taskCount := taskCount - 1;
    }

    /** One pass through the loop of GOMP_taskwait, up to the unlock. */
    method TaskwaitLock(p: Id)
      requires Shape(View()) && TeamInv(View()) && Linked() && p < |info| && phase[p] == InTaskwait
      modifies this
      ensures Passes(old(View()), View(), p) && Linked()
    {
      hide TeamInv, Passes, RunPre, Team.Linked;
      PassFacts(View(), p);
      Heads(p);
      if childHead[p] == NULL {
        phase := phase[p := Running];
      } else {
        var c: nat := childHead[p];
        if kind[c] == Waiting {
          TaskRunPre(c);
          phase := phase[p := Helping(c)];
        } else {
          inTaskwait := inTaskwait + {p};
          phase := phase[p := Asleep];
        }
      }
    }

    /** A thread has run a child from inside GOMP_taskwait. */
    method TaskwaitHelped(p: Id)
      requires Shape(View()) && TeamInv(View()) && MayEndTaskwait(View(), p) && Linked()
      modifies this
      ensures HelpEnds(old(View()), View(), p) && Linked()
    {
      hide TeamInv, DataInv, MayFinish, Finish, HelpEnds, Shape, MayEndTaskwait, Team.Linked;
      HelpFacts(View(), p);
      var c := phase[p].child;
      TaskFinish(c, false);
      phase := phase[p := InTaskwait];
    }

    /** gomp_team_barrier_done. */
    method TeamBarrierDone()
      modifies this`arrived, this`epoch, this`waitingForTasks
      ensures View() == BarrierDone(old(View()))
    {
      epoch, arrived, waitingForTasks := epoch + 1, 0, false;
    }

    /** gomp_barrier_handle_tasks: arrival. */
    method BarrierLock(i: Id)
      requires TeamInv(View()) && Shape(View()) && MayArrive(View(), i)
      modifies this`phase, this`arrived, this`epoch, this`waitingForTasks
      ensures ArrivesAt(old(View()), View(), i)
    {
      hide TeamInv, ArrivesAt, Shape, MayArrive;
      ArriveFacts(View(), i);
      phase := phase[i := AtBarrier(epoch)];
      arrived := arrived + 1;
      if arrived == nthreads {
        if taskCount == 0 {
          TeamBarrierDone();
        } else {
          waitingForTasks := true;
        }
      }
    }

    /** gomp_barrier_handle_tasks: the first task of the queue is taken. */
    method BarrierTakeTask(i: Id)
      requires Shape(View()) && TeamInv(View()) && MayTake(View(), i) && Linked()
      modifies this
      ensures Takes(old(View()), View(), i) && Linked()
    {
      hide TeamInv, Team.Linked, Takes, RunPre, MayTake;
      TakeFacts(View(), i);
      Heads(i);
      var c: nat := queueHead;
      var e := phase[i].epoch;
      TaskRunPre(c);
      phase := phase[i := BarrierRun(e, c)];
    }

    /** The completion test at the end of gomp_barrier_handle_tasks' loop body. */
    method BarrierTest()
      modifies this`arrived, this`epoch, this`waitingForTasks
      ensures View() == Tested(old(View()))
    {
      if taskCount == 0 && waitingForTasks {
        TeamBarrierDone();
      }
    }

    /** The child is finished and its runner is back at the barrier. */
    method FinishAtBarrier(i: Id, c: Id, e: nat)
      requires DataInv(View()) && MayFinish(View(), c) && i < |phase| && Linked()
      modifies this
      ensures c < |old(info)| && old(info)[c].parent < c && Linked()
      ensures View() == SetPhase(Finish(old(View()), c, true), i, AtBarrier(e))
    {
      hide DataInv, MayFinish, Finish, Team.Linked, Shape;
      FinishFacts(View(), c);
      FinishKeeps(View(), c, true);
      TaskFinish(c, true);
      phase := phase[i := AtBarrier(e)];
    }

    /** gomp_barrier_handle_tasks: a thread has run a task from the queue. */
    method BarrierHelped(i: Id)
      requires Shape(View()) && TeamInv(View()) && MayEndBarrier(View(), i) && Linked()
      modifies this
      ensures RunEnds(old(View()), View(), i) && Linked()
    {
      hide TeamInv, DataInv, MayFinish, Finish, Tested, RunEnds, Shape, MayEndBarrier, Team.Linked, SetPhase;
      RunFacts(View(), i);
      var c := phase[i].child;
      var e := phase[i].epoch;
      FinishAtBarrier(i, c, e);
      BarrierTest();
    }
  }

  /** The steps of the scheduler, with what they lead to. */
  ghost predicate HelpEnds(s: State, r: State, p: Id) {
    && Shape(s) && p < |s.g.info| && s.phase[p].Helping?
    && s.phase[p].child < |s.g.info| && s.g.info[s.phase[p].child].parent < s.phase[p].child
    && r == TaskwaitEnd(s, p) && TeamInv(r)
  }

  lemma HelpFacts(s: State, p: Id)
    requires Shape(s) && TeamInv(s) && MayEndTaskwait(s, p)
    ensures p < |s.phase| && s.phase[p].Helping? && DataInv(s) && MayFinish(s, s.phase[p].child)
    ensures var c := s.phase[p].child;
            && c < |s.g.info| && s.g.info[c].parent < c && p < |Finish(s, c, false).phase|
            && HelpEnds(s, SetPhase(Finish(s, c, false), p, InTaskwait), p)
  {
    EndFacts(s, p, s.phase[p].child);
    TaskwaitEndInv(s, p);
    hide DataInv, ThreadInv, TeamInv, MayFinish, Finish;
    FinishKeeps(s, s.phase[p].child, false);
  }

  ghost predicate Takes(s: State, r: State, i: Id) {
    && Shape(s) && i < |s.g.info| && s.phase[i].AtBarrier? && s.queue != []
    && s.queue[0] < |s.g.info| && s.g.info[s.queue[0]].parent < |s.g.info|
    && r == BarrierTake(s, i) && TeamInv(r)
  }

  lemma TakeFacts(s: State, i: Id)
    requires Shape(s) && TeamInv(s) && MayTake(s, i)
    ensures i < |s.phase| && s.phase[i].AtBarrier? && s.queue != []
    ensures s.queue[0] < |s.g.info| && s.g.info[s.queue[0]].parent < |s.g.info| && s.queue[0] in s.queue
    ensures Takes(s, BarrierTake(s, i), i)
  {
    BarrierTakeInv(s, i);
    hide TeamInv, RunPre;
  }

  /** The completion test. */
  function Tested(s: State): State {
    if s.taskCount == 0 && s.waitingForTasks then BarrierDone(s) else s
  }

  ghost predicate RunEnds(s: State, r: State, i: Id) {
    && Shape(s) && i < |s.g.info| && s.phase[i].BarrierRun?
    && s.phase[i].child < |s.g.info| && s.g.info[s.phase[i].child].parent < s.phase[i].child
    && r == BarrierEnd(s, i) && TeamInv(r)
  }

  lemma RunFacts(s: State, i: Id)
    requires Shape(s) && TeamInv(s) && MayEndBarrier(s, i)
    ensures i < |s.phase| && s.phase[i].BarrierRun? && DataInv(s) && MayFinish(s, s.phase[i].child)
    ensures var c := s.phase[i].child;
            && c < |s.g.info| && s.g.info[c].parent < c && i < |Finish(s, c, true).phase|
            && var s1 := SetPhase(Finish(s, c, true), i, AtBarrier(s.phase[i].epoch));
            RunEnds(s, Tested(s1), i)
  {
    EndFacts(s, i, s.phase[i].child);
    BarrierEndInv(s, i);
    hide DataInv, ThreadInv, TeamInv, MayFinish, Finish, BarrierDone;
    FinishKeeps(s, s.phase[i].child, true);
  }

  lemma FinishKeeps(s: State, c: Id, signal: bool)
    requires Shape(s) && c < |s.g.info| && s.g.info[c].parent < c
    ensures Finish(s, c, signal).phase == s.phase
  {
  }

  // The rings of a team.

  lemma RingCount(next: seq<Id>, prev: seq<Id>, heads: seq<int>, rings: seq<seq<Id>>)
    requires AreRings(next, prev, heads, rings)
    ensures |heads| == |rings| && |next| == |prev|
  {
  }

  lemma RingOf(next: seq<Id>, prev: seq<Id>, heads: seq<int>, rings: seq<seq<Id>>, p: Id)
    requires AreRings(next, prev, heads, rings) && p < |rings|
    ensures |heads| == |rings| && |next| == |prev| && IsRing(next, prev, heads[p], rings[p])
    ensures (heads[p] == NULL <==> rings[p] == []) && heads[p] >= NULL
    ensures rings[p] != [] ==> heads[p] == rings[p][0] && 0 <= heads[p] < |next| && prev[heads[p]] == rings[p][|rings[p]| - 1] < |next|
  {
    HeadFacts(next, prev, heads[p], rings[p]);
  }

  /** The links that InsertChild changes are in the ring of p, or those of the new task. */
  lemma PushedRing(next: seq<Id>, prev: seq<Id>, heads: seq<int>, rings: seq<seq<Id>>, p: Id, t: Id, next2: seq<Id>, prev2: seq<Id>)
    requires AreRings(next, prev, heads, rings) && p < |rings| && t < |next| && InNone(rings, t) && |next2| == |prev2| == |next|
    requires IsRing(next2, prev2, t, [t] + rings[p])
    requires forall x: Id :: x < |next| && x != t && x !in rings[p] ==> next2[x] == next[x] && prev2[x] == prev[x]
    ensures AreRings(next2, prev2, heads[p := t], rings[p := [t] + rings[p]])
  {
    hide IsRing, AreRings;
    ChangeRing(next, prev, heads, rings, p, next2, prev2, t, [t] + rings[p]);
  }

  lemma UnlinkedRing(next: seq<Id>, prev: seq<Id>, heads: seq<int>, rings: seq<seq<Id>>, p: Id, c: Id, next2: seq<Id>,
                     prev2: seq<Id>, head: int)
    requires AreRings(next, prev, heads, rings) && p < |rings| && |next2| == |prev2| == |next|
    requires IsRing(next2, prev2, head, Minus(rings[p], c))
    requires forall x: Id :: x < |next| && x !in rings[p] ==> next2[x] == next[x] && prev2[x] == prev[x]
    ensures AreRings(next2, prev2, heads[p := head], rings[p := Minus(rings[p], c)])
  {
    hide IsRing, AreRings;
    ChangeRing(next, prev, heads, rings, p, next2, prev2, head, Minus(rings[p], c));
  }

  /** The head pointer moves on: the first child becomes the last one. */
  lemma TurnedRing(next: seq<Id>, prev: seq<Id>, heads: seq<int>, rings: seq<seq<Id>>, p: Id)
    requires AreRings(next, prev, heads, rings) && p < |rings| && rings[p] != []
    ensures |heads| == |rings| && rings[p][0] < |next|
    ensures AreRings(next, prev, heads[p := next[rings[p][0]]], rings[p := rings[p][1..] + [rings[p][0]]])
  {
    RingOf(next, prev, heads, rings, p);
    hide IsRing, AreRings;
    Rotate(next, prev, rings[p]);
    ChangeRing(next, prev, heads, rings, p, next, prev, next[rings[p][0]], rings[p][1..] + [rings[p][0]]);
  }

  lemma LongerRing(next: seq<Id>, prev: seq<Id>, head: int, ring: seq<Id>)
    requires IsRing(next, prev, head, ring)
    ensures IsRing(next + [0], prev + [0], head, ring)
  {
    HeadFacts(next, prev, head, ring);
    hide IsRing;
    KeepRing(next, prev, next + [0], prev + [0], head, ring);
  }

  /** A new task is in no ring and not in the queue. */
  lemma CreateFacts(s: State, p: Id)
    requires DataInv(s)
    ensures |s.children| == |s.g.info| && |s.kind| == |s.g.info| && |s.g.dependers| == |s.g.dependees| == |s.g.info|
    ensures Inv(s.g) && (MayCreate(s, p) ==> p < |s.g.info| && Live(s.g, p))
    ensures InNone(s.children + [[]], |s.g.info|) && |s.g.info| !in s.queue
  {
    hide Inv, Roles, CountsRight;
    forall q | 0 <= q < |s.children| ensures |s.g.info| !in s.children[q] {
      assert RingOk(s, q);
    }
  }

  /** From the i-th on, tasks in no ring and not in the queue. */
  ghost predicate Outside(n: nat, rings: seq<seq<Id>>, queue: seq<Id>, vs: seq<Id>, i: nat) {
    forall k :: i <= k < |vs| ==> vs[k] < n && InNone(rings, vs[k]) && vs[k] !in queue
  }

  /** Only one task is put in. */
  ghost predicate KeepsOut(rings: seq<seq<Id>>, queue: seq<Id>, rings2: seq<seq<Id>>, queue2: seq<Id>, task: Id) {
    forall x: Id :: x != task && InNone(rings, x) && x !in queue ==> InNone(rings2, x) && x !in queue2
  }

  lemma OutsideHead(n: nat, rings: seq<seq<Id>>, queue: seq<Id>, vs: seq<Id>, i: nat)
    requires i < |vs| && Outside(n, rings, queue, vs, i)
    ensures vs[i] < n && InNone(rings, vs[i]) && vs[i] !in queue
  {
  }

  lemma OutsideRest(n: nat, rings: seq<seq<Id>>, queue: seq<Id>, rings2: seq<seq<Id>>, queue2: seq<Id>, vs: seq<Id>, i: nat)
    requires i < |vs| && NoRepeats(vs) && Outside(n, rings, queue, vs, i) && KeepsOut(rings, queue, rings2, queue2, vs[i])
    ensures Outside(n, rings2, queue2, vs, i + 1)
  {
    hide InNone;
  }

  /** What waits for an unfinished task is in no ring and not in the queue. */
  lemma DependersFree(s: State, c: Id)
    requires DataInv(s) && c < |s.g.info| && Pending(s.g, c)
    ensures |s.g.dependers| == |s.g.info| && Outside(|s.g.info|, s.children, s.queue, s.g.dependers[c], 0)
  {
    hide Roles, CountsRight;
    forall k | 0 <= k < |s.g.dependers[c]|
      ensures var v := s.g.dependers[c][k]; v < |s.g.info| && InNone(s.children, v) && v !in s.queue
    {
      var v := s.g.dependers[c][k];
      assert Edge(s.g, c, v);
      NotActive(s.g, c, v);
      forall q | 0 <= q < |s.children| ensures v !in s.children[q] {
        assert RingOk(s, q);
      }
    }
  }

  lemma NotActive(g: Graph, c: Id, v: Id)
    requires Inv(g) && Edge(g, c, v)
    ensures v < |g.info| && !Active(g, v)
  {
    if v < |g.info| && g.dependees[v] == 0 { NoPreds(g, v); }
  }

  /** A running child is in its parent's ring, and stays there when dependers are linked in. */
  lemma StillChild(s: State, c: Id)
    requires DataInv(s) && MayFinish(s, c)
    ensures c < |s.g.info| && s.g.info[c].parent < |s.g.info| && c in HandleDepend(s, c).children[s.g.info[c].parent]
    ensures HandleDepend(s, c).g.info == s.g.info
  {
    var p := s.g.info[c].parent;
    assert RingOk(s, p);
    assert Child(s.g, p, c) && Active(s.g, c);
    hide Inv, QueueOk, RingsOk, CountsRight;
    assert c in s.children[p];
    InReversed(Freed(s.g.dependees, s.g.dependers[c]), s.children[p], c);
  }

  lemma InReversed(ready: seq<Id>, ring: seq<Id>, c: Id)
    requires c in ring
    ensures c in Reverse(ready) + ring
  {
  }

  /** A pass through the loop of GOMP_taskwait: the thread leaves only if all its children have ended, helps only with a child
      from the queue, and sleeps only if it has unfinished children and none of them is in the queue. */
  ghost predicate Passes(s: State, r: State, p: Id) {
    && Shape(s) && p < |s.g.info| && (forall c: Id :: c in s.children[p] ==> c < |s.g.info| && s.g.info[c].parent == p)
    && r == TaskwaitPass(s, p) && TeamInv(r) && p < |r.phase|
    && match r.phase[p] {
         case Running => ChildrenDone(r.g, p)
         case Helping(c) => Child(s.g, p, c) && c in s.queue
         case Asleep => !ChildrenDone(r.g, p) && forall c: Id :: Child(r.g, p, c) ==> c !in r.queue
         case _ => false
       }
  }

  lemma PassFacts(s: State, p: Id)
    requires Shape(s) && TeamInv(s) && p < |s.g.info| && s.phase[p] == InTaskwait
    ensures forall c: Id :: c in s.children[p] ==> c < |s.g.info| && s.g.info[c].parent == p
    ensures Passes(s, TaskwaitPass(s, p), p)
    ensures s.children[p] != [] ==>
              s.children[p][0] < |s.g.info| && (s.kind[s.children[p][0]] == Waiting ==> s.children[p][0] in s.queue)
  {
    hide ChildrenDone, Minus, TeamInv, DataInv, ThreadInv, Shape;
    TaskwaitPassInv(s, p);
    TaskwaitFacts(s, p);
    PassParts(s, p);
  }

  lemma PassParts(s: State, p: Id)
    requires Shape(s) && p < |s.g.info|
    requires forall c: Id :: c in s.children[p] ==> c < |s.g.info| && s.g.info[c].parent == p
    ensures |s.children| == |s.phase| == |s.kind| == |s.g.info|
    ensures var r := TaskwaitPass(s, p);
            && |r.phase| == |s.phase| && r.g == s.g
            && (s.children[p] == [] ==> r.phase[p] == Running)
            && (s.children[p] != [] ==> s.children[p][0] < |s.kind|)
            && (s.children[p] != [] && s.kind[s.children[p][0]] == Waiting ==> r.phase[p] == Helping(s.children[p][0]))
            && (s.children[p] != [] && s.kind[s.children[p][0]] != Waiting ==> r.phase[p] == Asleep && r.queue == s.queue)
  {
    HeadIn(s.children[p]);
    hide Minus;
  }

  /** What a pass finds. */
  lemma TaskwaitFacts(s: State, p: Id)
    requires Shape(s) && TeamInv(s) && p < |s.g.info| && s.phase[p] == InTaskwait
    ensures s.children[p] == [] ==> ChildrenDone(s.g, p)
    ensures s.children[p] != [] ==>
              var c := s.children[p][0];
              && c < |s.g.info| && s.g.info[c].parent == p && Child(s.g, p, c) && !ChildrenDone(s.g, p)
              && (s.kind[c] == Waiting ==> c in s.queue)
              && (s.kind[c] != Waiting ==> forall d: Id :: Child(s.g, p, d) ==> d !in s.queue)
  {
    if s.children[p] == [] {
      EmptyRingDone(s, p);
    } else {
      NoChildQueued(s, p);
    }
  }

  lemma NoChildQueued(s: State, p: Id)
    requires DataInv(s) && p < |s.g.info| && s.children[p] != []
    ensures var c := s.children[p][0];
            && c < |s.g.info| && s.g.info[c].parent == p && Child(s.g, p, c) && !ChildrenDone(s.g, p)
            && (s.kind[c] == Waiting ==> c in s.queue)
            && (s.kind[c] != Waiting ==> forall d: Id :: Child(s.g, p, d) ==> d !in s.queue)
  {
    assert RingOk(s, p);
    hide Inv, RingsOk, CountsRight, Roles;
    var c := s.children[p][0];
    assert c in s.children[p];
    assert Child(s.g, p, c) && Active(s.g, c);
    WaitingFirst(s.kind, s.children[p], Restrict(s.g, s.queue, p));
  }

  /** If any child waits in the queue, the first one does. */
  lemma WaitingFirst(kind: seq<Kind>, ring: seq<Id>, w: seq<Id>)
    requires RingShape(kind, ring, w) && ring != []
    ensures w != [] ==> ring[0] in w
  {
    HeadIn(Reverse(w));
    assert w != [] ==> ring[0] == ring[..|w|][0] == Reverse(w)[0];
  }

  /** Arrival at the barrier: it opens only if this was the last thread and every explicit task has ended. */
  ghost predicate ArrivesAt(s: State, r: State, i: Id) {
    && i < |s.phase| && r == BarrierArrive(s, i) && TeamInv(r)
    && (r.epoch != s.epoch ==>
          r.epoch == s.epoch + 1 && s.arrived + 1 == s.nthreads && forall t: Id :: s.nthreads <= t < |s.g.info| ==> t in s.g.done)
  }

  lemma ArriveFacts(s: State, i: Id)
    requires TeamInv(s) && Shape(s) && MayArrive(s, i)
    ensures i < |s.phase| && ArrivesAt(s, BarrierArrive(s, i), i)
  {
    hide TeamInv, Shaped;
    BarrierArriveInv(s, i);
    if BarrierArrive(s, i).epoch != s.epoch {
      Opens(s, i);
    }
  }

  lemma Opens(s: State, i: Id)
    requires TeamInv(s) && Shape(s) && MayArrive(s, i) && BarrierArrive(s, i).epoch != s.epoch
    ensures forall t: Id :: s.nthreads <= t < |s.g.info| ==> t in s.g.done
  {
    hide TeamInv;
    forall t: Id | s.nthreads <= t < |s.g.info| ensures t in s.g.done {
      BarrierOpens(s, Arrives(i), t);
    }
  }

  lemma InvChains(g: Graph)
    requires Inv(g)
    ensures ChainsOk(g) && Shaped(g)
  {
  }

  lemma VectorFacts(g: Graph, c: Id)
    requires Shaped(g) && EdgesOk(g) && c < |g.info|
    ensures NoRepeats(g.dependers[c])
  {
  }

  lemma FinishFacts(s: State, c: Id)
    requires DataInv(s) && MayFinish(s, c)
    ensures Shape(s) && ChainsOk(s.g) && FlagsOk(s.g) && EdgesOk(s.g) && Pending(s.g, c) && s.g.info[c].parent < c
  {
  }
}
