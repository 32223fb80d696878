/** Intrusive rings of tasks: every task has a link to the next and to the previous one, and whoever owns a ring holds the
    link to its first task. */
module TaskRings {
  import opened Sequences

  type Id = nat

  const NULL: int := -1

  /** The task after the k-th one of a ring. */
  function Succ(ring: seq<Id>, k: nat): Id
    requires k < |ring|
  {
    if k + 1 < |ring| then ring[k + 1] else ring[0]
  }

  /** The k-th task and the one after it are linked in both directions. */
  predicate LinkedAt(next: seq<Id>, prev: seq<Id>, ring: seq<Id>, k: nat)
    requires k < |ring|
  {
    && ring[k] < |next| && Succ(ring, k) < |prev|
    && next[ring[k]] == Succ(ring, k) && prev[Succ(ring, k)] == ring[k]
  }

  /** The links go round the ring, and it starts at head. */
  ghost predicate IsRing(next: seq<Id>, prev: seq<Id>, head: int, ring: seq<Id>) {
    && |next| == |prev| && NoRepeats(ring) && head == (if ring == [] then NULL else ring[0])
    && forall k :: 0 <= k < |ring| ==> LinkedAt(next, prev, ring, k)
  }

  /** The first task of a ring and the last. */
  lemma HeadFacts(next: seq<Id>, prev: seq<Id>, head: int, ring: seq<Id>)
    requires IsRing(next, prev, head, ring)
    ensures |next| == |prev| && NoRepeats(ring) && (head == NULL <==> ring == []) && head >= NULL
    ensures ring != [] ==> head == ring[0] && 0 <= head < |next| && prev[head] == ring[|ring| - 1] < |next|
  {
    if ring != [] { assert LinkedAt(next, prev, ring, |ring| - 1) && LinkedAt(next, prev, ring, 0); }
  }

  /** The k-th task of a ring. */
  lemma TaskAt(next: seq<Id>, prev: seq<Id>, head: int, ring: seq<Id>, k: nat)
    requires IsRing(next, prev, head, ring) && k < |ring|
    ensures ring[k] < |next| == |prev| && next[ring[k]] == Succ(ring, k)
    ensures prev[ring[k]] == if k > 0 then ring[k - 1] else ring[|ring| - 1]
  {
    assert LinkedAt(next, prev, ring, k) && LinkedAt(next, prev, ring, if k > 0 then k - 1 else |ring| - 1);
  }

  /** Links outside the ring do not matter. */
  lemma KeepRing(next: seq<Id>, prev: seq<Id>, next2: seq<Id>, prev2: seq<Id>, head: int, ring: seq<Id>)
    requires IsRing(next, prev, head, ring) && |next2| == |prev2| && |next2| >= |next|
    requires forall k :: 0 <= k < |ring| && ring[k] < |next| ==> next2[ring[k]] == next[ring[k]] && prev2[ring[k]] == prev[ring[k]]
    ensures IsRing(next2, prev2, head, ring)
  {
    hide NoRepeats, LinkedAt;
    forall k | 0 <= k < |ring| ensures LinkedAt(next2, prev2, ring, k) {
      KeepLink(next, prev, next2, prev2, head, ring, k);
    }
  }

  lemma KeepLink(next: seq<Id>, prev: seq<Id>, next2: seq<Id>, prev2: seq<Id>, head: int, ring: seq<Id>, k: nat)
    requires IsRing(next, prev, head, ring) && |next2| == |prev2| && |next2| >= |next| && k < |ring|
    requires forall k :: 0 <= k < |ring| && ring[k] < |next| ==> next2[ring[k]] == next[ring[k]] && prev2[ring[k]] == prev[ring[k]]
    ensures LinkedAt(next2, prev2, ring, k)
  {
    assert LinkedAt(next, prev, ring, k);
    hide IsRing;
    var j := if k + 1 < |ring| then k + 1 else 0;
    assert Succ(ring, k) == ring[j];
  }

  /** The same links from the second task on. */
  lemma Rotate(next: seq<Id>, prev: seq<Id>, ring: seq<Id>)
    requires ring != [] && IsRing(next, prev, ring[0], ring)
    ensures ring[0] < |next| && next[ring[0]] == (if |ring| > 1 then ring[1] else ring[0])
    ensures IsRing(next, prev, next[ring[0]], ring[1..] + [ring[0]])
  {
    hide LinkedAt;
    TaskAt(next, prev, ring[0], ring, 0);
    var r := ring[1..] + [ring[0]];
    forall k | 0 <= k < |r| ensures LinkedAt(next, prev, r, k) {
      RotateLink(next, prev, ring, k);
    }
  }

  lemma RotateLink(next: seq<Id>, prev: seq<Id>, ring: seq<Id>, k: nat)
    requires k < |ring| && IsRing(next, prev, ring[0], ring)
    ensures LinkedAt(next, prev, ring[1..] + [ring[0]], k)
  {
    var r, n := ring[1..] + [ring[0]], |ring|;
    var j := if k + 1 < n then k + 1 else 0;
    assert LinkedAt(next, prev, ring, j);
    hide IsRing;
    assert r[k] == ring[j] && Succ(r, k) == Succ(ring, j);
  }

  /** The same links from the k-th task on. */
  lemma {:induction false} RotateBy(next: seq<Id>, prev: seq<Id>, ring: seq<Id>, k: nat)
    requires k < |ring| && IsRing(next, prev, ring[0], ring)
    ensures IsRing(next, prev, ring[k], ring[k..] + ring[..k])
  {
    hide IsRing;
    if k == 0 {
      assert ring[0..] + ring[..0] == ring;
    } else {
      RotateBy(next, prev, ring, k - 1);
      var r := ring[k - 1..] + ring[..k - 1];
      Rotate(next, prev, r);
      assert r[1..] + [r[0]] == ring[k..] + ring[..k];
    }
  }

  /** A task that is linked in before the head is the last one of the ring, or the first one if the head is moved. */
  lemma LinkBefore(next: seq<Id>, prev: seq<Id>, head: int, ring: seq<Id>, t: Id)
    requires IsRing(next, prev, head, ring) && ring != [] && t < |next| && t !in ring
    ensures 0 <= head < |prev| && |next| == |prev| && prev[head] < |next| && prev[head] == ring[|ring| - 1] && head == ring[0]
    ensures var next2, prev2 := next[t := head][prev[head] := t], prev[t := prev[head]][head := t];
            IsRing(next2, prev2, t, [t] + ring) && IsRing(next2, prev2, head, ring + [t])
  {
    HeadFacts(next, prev, head, ring);
    hide IsRing, LinkedAt, NoRepeats;
    var last := prev[head];
    var next2, prev2 := next[t := head][last := t], prev[t := last][head := t];
    LinkFront(next, prev, ring, t, next2, prev2);
    Rotate(next2, prev2, [t] + ring);
    assert ([t] + ring)[1..] + [t] == ring + [t];
  }

  lemma LinkFront(next: seq<Id>, prev: seq<Id>, ring: seq<Id>, t: Id, next2: seq<Id>, prev2: seq<Id>)
    requires ring != [] && IsRing(next, prev, ring[0], ring) && t < |next| && t !in ring
    requires ring[0] < |next| && ring[|ring| - 1] < |next|
    requires next2 == next[t := ring[0]][ring[|ring| - 1] := t] && prev2 == prev[t := ring[|ring| - 1]][ring[0] := t]
    ensures IsRing(next2, prev2, t, [t] + ring)
  {
    hide LinkedAt;
    var r := [t] + ring;
    forall k | 0 <= k < |r| ensures LinkedAt(next2, prev2, r, k) {
      FrontLink(next, prev, ring, t, next2, prev2, k);
    }
  }

  lemma FrontLink(next: seq<Id>, prev: seq<Id>, ring: seq<Id>, t: Id, next2: seq<Id>, prev2: seq<Id>, k: nat)
    requires ring != [] && IsRing(next, prev, ring[0], ring) && t < |next| && t !in ring && k <= |ring|
    requires ring[0] < |next| && ring[|ring| - 1] < |next|
    requires next2 == next[t := ring[0]][ring[|ring| - 1] := t] && prev2 == prev[t := ring[|ring| - 1]][ring[0] := t]
    ensures LinkedAt(next2, prev2, [t] + ring, k)
  {
    var r, n := [t] + ring, |ring|;
    if k > 0 {
      assert r[k] == ring[k - 1] && ring[k - 1] in ring && LinkedAt(next, prev, ring, k - 1);
      if k < n { assert Succ(ring, k - 1) == ring[k] == Succ(r, k) && ring[k] in ring; }
    }
    hide IsRing;
  }

  lemma LinkAlone(next: seq<Id>, prev: seq<Id>, t: Id)
    requires |next| == |prev| && t < |next|
    ensures IsRing(next[t := t], prev[t := t], t, [t])
  {
  }

  /** The first task is unlinked. */
  lemma UnlinkFirst(next: seq<Id>, prev: seq<Id>, ring: seq<Id>, next2: seq<Id>, prev2: seq<Id>)
    requires |ring| > 1 && IsRing(next, prev, ring[0], ring) && |next| == |prev| && forall k :: 0 <= k < |ring| ==> ring[k] < |next|
    requires next2 == next[ring[|ring| - 1] := ring[1]] && prev2 == prev[ring[1] := ring[|ring| - 1]]
    ensures IsRing(next2, prev2, ring[1], ring[1..])
  {
    hide LinkedAt;
    var r := ring[1..];
    forall k | 0 <= k < |r| ensures LinkedAt(next2, prev2, r, k) {
      RestLink(next, prev, ring, next2, prev2, k);
    }
  }

  lemma RestLink(next: seq<Id>, prev: seq<Id>, ring: seq<Id>, next2: seq<Id>, prev2: seq<Id>, k: nat)
    requires |ring| > 1 && IsRing(next, prev, ring[0], ring) && |next| == |prev| && forall k :: 0 <= k < |ring| ==> ring[k] < |next|
    requires next2 == next[ring[|ring| - 1] := ring[1]] && prev2 == prev[ring[1] := ring[|ring| - 1]] && k + 1 < |ring|
    ensures LinkedAt(next2, prev2, ring[1..], k)
  {
    var r, n := ring[1..], |ring| - 1;
    assert LinkedAt(next, prev, ring, k + 1) && r[k] == ring[k + 1];
    if k + 1 < n { assert ring[k + 1] != ring[n] && ring[k + 2] != ring[1] && Succ(r, k) == ring[k + 2]; }
    hide IsRing;
  }

  /** A task is unlinked, wherever it is; the head moves on if it was the first, and is NULL if it was the only one. */
  lemma Unlink(next: seq<Id>, prev: seq<Id>, head: int, ring: seq<Id>, c: Id)
    requires IsRing(next, prev, head, ring) && c in ring
    ensures |next| == |prev| && c < |next| && prev[c] < |next| && next[c] < |prev| && prev[c] in ring && next[c] in ring
    ensures next[c] == c <==> |ring| == 1
    ensures var next2, prev2 := next[prev[c] := next[c]], prev[next[c] := prev[c]];
            next2[c] == next[c] && IsRing(next2, prev2, if head != c then head else if next[c] != c then next[c] else NULL, Minus(ring, c))
  {
    hide IsRing, Minus, LinkedAt;
    HeadFacts(next, prev, head, ring);
    var k :| 0 <= k < |ring| && ring[k] == c;
    MinusAt(ring, k);
    FirstOnce(ring, k);
    hide NoRepeats;
    UnlinkAt(next, prev, ring, k);
  }

  lemma FirstOnce(ring: seq<Id>, k: nat)
    requires NoRepeats(ring) && k < |ring|
    ensures ring[0] == ring[k] <==> k == 0
  {
  }

  lemma UnlinkAt(next: seq<Id>, prev: seq<Id>, ring: seq<Id>, k: nat)
    requires k < |ring| && IsRing(next, prev, ring[0], ring)
    ensures var c := ring[k];
            && |next| == |prev| && c < |next| && prev[c] < |next| && next[c] < |prev| && prev[c] in ring && next[c] in ring
            && (next[c] == c <==> |ring| == 1)
            && var next2, prev2 := next[prev[c] := next[c]], prev[next[c] := prev[c]];
            && next2[c] == next[c]
            && IsRing(next2, prev2, if k > 0 then ring[0] else if next[c] != c then next[c] else NULL, ring[..k] + ring[k + 1..])
  {
    hide IsRing, LinkedAt;
    TaskAt(next, prev, ring[0], ring, k);
    Others(next, prev, ring, k);
    var c, n := ring[k], |ring|;
    var next2, prev2 := next[prev[c] := next[c]], prev[next[c] := prev[c]];
    if n == 1 {
      EmptyRing(next2, prev2);
      assert ring[..k] + ring[k + 1..] == [];
    } else {
      RotateBy(next, prev, ring, k);
      var rot := ring[k..] + ring[..k];
      Indices(next, prev, rot);
      RotEnds(ring, k);
      UnlinkFirst(next, prev, rot, next2, prev2);
      Back(next2, prev2, ring, k);
    }
  }

  /** The neighbours of the k-th task are other tasks, unless it is alone. */
  lemma Others(next: seq<Id>, prev: seq<Id>, ring: seq<Id>, k: nat)
    requires k < |ring| && IsRing(next, prev, ring[0], ring)
    ensures ring[k] < |next| == |prev| && (next[ring[k]] == ring[k] <==> |ring| == 1) && (prev[ring[k]] == ring[k] <==> |ring| == 1)
    ensures next[ring[k]] in ring && prev[ring[k]] in ring && next[ring[k]] < |prev| && prev[ring[k]] < |next|
  {
    TaskAt(next, prev, ring[0], ring, k);
    TaskAt(next, prev, ring[0], ring, if k + 1 < |ring| then k + 1 else 0);
    TaskAt(next, prev, ring[0], ring, if k > 0 then k - 1 else |ring| - 1);
    hide LinkedAt;
  }

  lemma Indices(next: seq<Id>, prev: seq<Id>, ring: seq<Id>)
    requires ring != [] && IsRing(next, prev, ring[0], ring)
    ensures forall k :: 0 <= k < |ring| ==> ring[k] < |next|
  {
    forall k | 0 <= k < |ring| ensures ring[k] < |next| {
      assert LinkedAt(next, prev, ring, k);
    }
  }

  lemma RotEnds(ring: seq<Id>, k: nat)
    requires k < |ring| && |ring| > 1
    ensures var rot := ring[k..] + ring[..k];
            rot[0] == ring[k] && rot[1] == Succ(ring, k) && rot[|rot| - 1] == if k > 0 then ring[k - 1] else ring[|ring| - 1]
  {
  }

  /** Without the k-th task, from the one after it on, and from the first one on. */
  lemma Back(next: seq<Id>, prev: seq<Id>, ring: seq<Id>, k: nat)
    requires k < |ring| && |ring| > 1
    requires var rot := ring[k..] + ring[..k]; IsRing(next, prev, rot[1], rot[1..])
    ensures IsRing(next, prev, if k > 0 then ring[0] else ring[1], ring[..k] + ring[k + 1..])
  {
    hide IsRing;
    var n := |ring|;
    var rest := (ring[k..] + ring[..k])[1..];
    assert rest == ring[k + 1..] + ring[..k];
    if k > 0 {
      RotateBy(next, prev, rest, n - 1 - k);
      assert rest[n - 1 - k..] + rest[..n - 1 - k] == ring[..k] + ring[k + 1..];
    } else {
      assert rest == ring[..k] + ring[k + 1..];
    }
  }

  // The rings of all parents, which share the links.

  ghost predicate Apart(rings: seq<seq<Id>>) {
    forall p, q, x :: 0 <= p < |rings| && 0 <= q < |rings| && x in rings[p] && x in rings[q] ==> p == q
  }

  ghost predicate AreRings(next: seq<Id>, prev: seq<Id>, heads: seq<int>, rings: seq<seq<Id>>) {
    && |next| == |prev| && |heads| == |rings| && Apart(rings)
    && forall p :: 0 <= p < |rings| ==> IsRing(next, prev, heads[p], rings[p])
  }

  ghost predicate InNone(rings: seq<seq<Id>>, t: Id) {
    forall p :: 0 <= p < |rings| ==> t !in rings[p]
  }

  lemma NotElsewhere(rings: seq<seq<Id>>, p: nat, q: nat)
    requires Apart(rings) && p < |rings| && q < |rings| && p != q
    ensures forall k :: 0 <= k < |rings[q]| ==> rings[q][k] !in rings[p] && !InNone(rings, rings[q][k])
  {
    forall k | 0 <= k < |rings[q]| ensures rings[q][k] !in rings[p] && !InNone(rings, rings[q][k]) {
      assert rings[q][k] in rings[q];
    }
  }

  /** One ring changes, together with links that are in no other ring. */
  lemma ChangeRing(next: seq<Id>, prev: seq<Id>, heads: seq<int>, rings: seq<seq<Id>>, p: Id,
                   next2: seq<Id>, prev2: seq<Id>, head: int, ring: seq<Id>)
    requires AreRings(next, prev, heads, rings) && p < |rings| && |next2| == |prev2| == |next|
    requires IsRing(next2, prev2, head, ring) && forall x :: x in ring ==> x in rings[p] || InNone(rings, x)
    requires forall x: Id :: x < |next| && x !in rings[p] && !InNone(rings, x) ==> next2[x] == next[x] && prev2[x] == prev[x]
    ensures AreRings(next2, prev2, heads[p := head], rings[p := ring])
  {
    hide IsRing;
    var r := rings[p := ring];
    forall q | 0 <= q < |r| ensures IsRing(next2, prev2, heads[p := head][q], r[q]) {
      if q != p {
        assert IsRing(next, prev, heads[q], rings[q]);
        NotElsewhere(rings, p, q);
        KeepRing(next, prev, next2, prev2, heads[q], rings[q]);
      }
    }
  }

  /** One more ring, without tasks, and one more task, in no ring. */
  lemma MoreRings(next: seq<Id>, prev: seq<Id>, heads: seq<int>, rings: seq<seq<Id>>)
    requires AreRings(next, prev, heads, rings)
    ensures AreRings(next + [0], prev + [0], heads + [NULL], rings + [[]])
  {
    hide IsRing;
    forall q | 0 <= q < |rings| + 1 ensures IsRing(next + [0], prev + [0], (heads + [NULL])[q], (rings + [[]])[q]) {
      if q < |rings| {
        KeepRing(next, prev, next + [0], prev + [0], heads[q], rings[q]);
      } else {
        EmptyRing(next + [0], prev + [0]);
      }
    }
  }

  lemma EmptyRing(next: seq<Id>, prev: seq<Id>)
    requires |next| == |prev|
    ensures IsRing(next, prev, NULL, [])
  {
  }
}
